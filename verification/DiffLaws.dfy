/** Exactly which differences are listed, and in which order. */
module DiffLaws {
  import opened SpecDiff

  // ----- which ones ------------------------------------------------------------------------

  /** Down the path both trees branch alike, and at its end they do not and differ. */
  ghost predicate Parts(left: Json, right: Json, path: seq<Step>) {
    && (forall n | 0 <= n < |path| :: SameKind(At(left, path[..n]), At(right, path[..n])))
    && !SameKind(At(left, path), At(right, path)) && At(left, path) != At(right, path)
  }

  lemma {:induction false} AtStep(t: Json, s: Step, rest: seq<Step>, n: nat)
    requires n <= |rest|
    ensures At(t, ([s] + rest)[..n + 1]) == At(Child(t, s), rest[..n])
  {
    assert ([s] + rest)[..n + 1][0] == s && ([s] + rest)[..n + 1][1..] == rest[..n];
  }

  lemma PartsStep(left: Json, right: Json, s: Step, rest: seq<Step>)
    ensures Parts(left, right, [s] + rest) <==> SameKind(left, right) && Parts(Child(left, s), Child(right, s), rest)
  {
    hide At, Child;
    var path := [s] + rest;
    forall n | 0 <= n <= |rest|
      ensures At(left, path[..n + 1]) == At(Child(left, s), rest[..n])
      ensures At(right, path[..n + 1]) == At(Child(right, s), rest[..n])
    {
      AtStep(left, s, rest, n);
      AtStep(right, s, rest, n);
    }
    assert path[..|path|] == path && rest[..|rest|] == rest && path[..0] == [];
    AtNothing(left);
    AtNothing(right);
    if Parts(left, right, path) {
      assert SameKind(At(left, path[..0]), At(right, path[..0]));
      forall n | 0 <= n < |rest| ensures SameKind(At(Child(left, s), rest[..n]), At(Child(right, s), rest[..n])) {
        assert SameKind(At(left, path[..n + 1]), At(right, path[..n + 1]));
      }
    }
    if SameKind(left, right) && Parts(Child(left, s), Child(right, s), rest) {
      forall n | 0 <= n < |path| ensures SameKind(At(left, path[..n]), At(right, path[..n])) {
        if n > 0 { assert SameKind(At(Child(left, s), rest[..n - 1]), At(Child(right, s), rest[..n - 1])); }
      }
    }
  }

  lemma AtNothing(t: Json)
    ensures At(t, []) == t
  {}

  /** Two absent values part nowhere. */
  lemma {:induction false} NothingParts(rest: seq<Step>)
    ensures !Parts(Null, Null, rest)
  {
    if rest == [] {
    } else {
      assert rest[..0] == [];
      AtNothing(Null);
      assert !SameKind(At(Null, rest[..0]), At(Null, rest[..0]));
    }
  }

  /** The difference lists a place below `base` where the trees part, with the values there. */
  ghost predicate Lists(d: FieldDiff, left: Json, right: Json, base: seq<Step>) {
    && base <= d.path
    && var rest := d.path[|base|..];
       Parts(left, right, rest) && d.left == At(left, rest) && d.right == At(right, rest)
  }

  lemma PrefixSnoc(path: seq<Step>, base: seq<Step>, s: Step)
    ensures base + [s] <= path <==> base <= path && |path| > |base| && path[|base|] == s
  {
    if base <= path && |path| > |base| && path[|base|] == s { assert path[..|base| + 1] == base + [s]; }
    if base + [s] <= path {
      assert base == (base + [s])[..|base|] == path[..|base|];
      assert path[|base|] == (base + [s])[|base|];
    }
  }

  lemma ListsStep(d: FieldDiff, left: Json, right: Json, base: seq<Step>, s: Step)
    requires SameKind(left, right)
    ensures Lists(d, Child(left, s), Child(right, s), base + [s]) <==>
            Lists(d, left, right, base) && |d.path| > |base| && d.path[|base|] == s
  {
    hide Parts, Child;
    PrefixSnoc(d.path, base, s);
    if base + [s] <= d.path {
      var rest := d.path[|base| + 1..];
      assert d.path[|base|..] == [s] + rest && d.path[|base + [s]|..] == rest;
      PartsStep(left, right, s, rest);
      AtStep(left, s, rest, |rest|);
      AtStep(right, s, rest, |rest|);
      assert ([s] + rest)[..|rest| + 1] == [s] + rest && rest[..|rest|] == rest;
    }
  }

  /** A difference is listed exactly where the trees part. */
  lemma {:induction false} DiffExact(left: Json, right: Json, base: seq<Step>, d: FieldDiff)
    ensures d in Diff(left, right, base) <==> Lists(d, left, right, base)
    decreases Weight(left), left
  {
    if SameKind(left, right) {
      DiffIsDiffAt(left, right, base);
      DiffAtExact(left, right, Steps(left, right), base, d);
      if Lists(d, left, right, base) { ListedStep(d, left, right, base); }
    } else {
      Leaf(d, left, right, base);
    }
  }

  /** Trees of one kind part under one of their steps. */
  lemma ListedStep(d: FieldDiff, left: Json, right: Json, base: seq<Step>)
    requires SameKind(left, right) && Lists(d, left, right, base)
    ensures |d.path| > |base| && d.path[|base|] in Steps(left, right)
  {
    hide Steps, Child;
    var rest := d.path[|base|..];
    assert rest == [] ==> !Parts(left, right, rest) by { AtNothing(left); AtNothing(right); }
    var s := d.path[|base|];
    assert rest == [s] + rest[1..];
    PartsStep(left, right, s, rest[1..]);
    NothingParts(rest[1..]);
    StepsLaw(left, right);
  }

  /** Trees of different kinds part at once. */
  lemma PartsHere(left: Json, right: Json, rest: seq<Step>)
    requires !SameKind(left, right)
    ensures Parts(left, right, rest) <==> rest == [] && left != right
  {
    if rest != [] {
      assert rest[..0] == [];
      AtNothing(left);
      AtNothing(right);
    }
  }

  lemma Leaf(d: FieldDiff, left: Json, right: Json, base: seq<Step>)
    requires !SameKind(left, right)
    ensures d in Diff(left, right, base) <==> Lists(d, left, right, base)
  {
    hide Parts;
    AtNothing(left);
    AtNothing(right);
    PartsHere(left, right, []);
    assert base[|base|..] == [];
    if base <= d.path {
      var rest := d.path[|base|..];
      PartsHere(left, right, rest);
      assert d.path == base + rest;
      assert rest == [] ==> d.path == base;
      assert d.path == base ==> rest == [];
      assert left != right ==> (d in Diff(left, right, base) <==> d == FieldDiff(base, left, right));
    }
  }

  lemma {:induction false} DiffAtExact(left: Json, right: Json, steps: seq<Step>, base: seq<Step>, d: FieldDiff)
    requires SameKind(left, right)
    ensures d in DiffAt(left, right, steps, base) <==>
            Lists(d, left, right, base) && |d.path| > |base| && d.path[|base|] in steps
    decreases Weight(left), left, |steps|
  {
    hide Lists, Diff, DiffAt;
    if steps == [] {
      NoSteps(left, right, base);
    } else {
      var init, s := steps[..|steps| - 1], steps[|steps| - 1];
      DiffAtExact(left, right, init, base, d);
      DiffExact(Child(left, s), Child(right, s), base + [s], d);
      ListsStep(d, left, right, base, s);
      DiffAtSnoc(left, right, steps, |init|, base);
      assert steps[..|init| + 1] == steps;
      assert forall x :: x in steps <==> x in init || x == s;
    }
  }

  // ----- in which order --------------------------------------------------------------------

  /** The names agree up to position k, where the one ends or has the smaller character. */
  predicate LessAt(a: string, b: string, k: nat) {
    k <= |a| && k < |b| && a[..k] == b[..k] && (k == |a| || a[k] < b[k])
  }

  lemma LessAtNext(a: string, b: string, k: nat)
    requires a != "" && b != "" && a[0] == b[0]
    ensures LessAt(a, b, k + 1) <==> LessAt(a[1..], b[1..], k)
    ensures !LessAt(a, b, 0)
  {
    if k < |a| && k + 1 < |b| {
      assert a[..k + 1] == [a[0]] + a[1..][..k] && b[..k + 1] == [b[0]] + b[1..][..k];
      assert a[..k + 1][1..] == a[1..][..k] && b[..k + 1][1..] == b[1..][..k];
    }
  }

  lemma LessAtFirst(a: string, b: string)
    requires a == "" || b == "" || a[0] != b[0]
    ensures LessAt(a, b, 0) <==> b != "" && (a == "" || a[0] < b[0])
    ensures forall k: nat | k > 0 :: !LessAt(a, b, k)
  {
    assert b != "" ==> a[..0] == b[..0];
    forall k: nat | 0 < k <= |a| && k < |b| ensures a[..k] != b[..k] { assert a[..k][0] == a[0] && b[..k][0] == b[0]; }
  }

  /** Character by character, and a proper prefix first. */
  lemma {:induction false} BeforeExact(a: string, b: string)
    ensures Before(a, b) <==> exists k: nat :: LessAt(a, b, k)
  {
    hide LessAt;
    if a != "" && b != "" && a[0] == b[0] {
      BeforeExact(a[1..], b[1..]);
      if k: nat :| LessAt(a[1..], b[1..], k) {
        LessAtNext(a, b, k);
        assert LessAt(a, b, k + 1);
      }
      if k: nat :| LessAt(a, b, k) {
        LessAtNext(a, b, if k > 0 then k - 1 else 0);
      }
    } else {
      LessAtFirst(a, b);
    }
  }

  predicate StepBefore(s: Step, r: Step) {
    match (s, r)
    case (Key(a), Key(b)) => Before(a, b)
    case (Index(i), Index(j)) => i < j
    case _ => false
  }

  /** The paths agree up to a place, where the one's step comes before the other's. */
  ghost predicate PathBefore(p: seq<Step>, q: seq<Step>, n: nat) {
    n < |p| && n < |q| && p[..n] == q[..n] && StepBefore(p[n], q[n])
  }

  ghost predicate Earlier(d: FieldDiff, e: FieldDiff) {
    exists n: nat :: PathBefore(d.path, e.path, n)
  }

  ghost predicate InOrder(diffs: seq<FieldDiff>) {
    forall i, j | 0 <= i < j < |diffs| :: Earlier(diffs[i], diffs[j])
  }

  lemma StepsInOrder(a: Json, b: Json)
    requires SameKind(a, b)
    ensures forall i, j | 0 <= i < j < |Steps(a, b)| :: StepBefore(Steps(a, b)[i], Steps(a, b)[j])
  {}

  /** Differences are listed key by key in the order of the names and item by item, at every depth. */
  lemma {:induction false} DiffInOrder(left: Json, right: Json, base: seq<Step>)
    ensures InOrder(Diff(left, right, base))
    decreases Weight(left), left
  {
    if SameKind(left, right) {
      StepsInOrder(left, right);
      DiffAtInOrder(left, right, Steps(left, right), base);
    }
  }

  lemma {:induction false} DiffAtInOrder(left: Json, right: Json, steps: seq<Step>, base: seq<Step>)
    requires SameKind(left, right) && forall i, j | 0 <= i < j < |steps| :: StepBefore(steps[i], steps[j])
    ensures InOrder(DiffAt(left, right, steps, base))
    decreases Weight(left), left, |steps|
  {
    hide StepBefore, Diff, DiffAt;
    if steps == [] {
      NoSteps(left, right, base);
    } else {
      var init, s := steps[..|steps| - 1], steps[|steps| - 1];
      DiffAtSnoc(left, right, steps, |init|, base);
      assert steps[..|init| + 1] == steps;
      DiffAtInOrder(left, right, init, base);
      DiffInOrder(Child(left, s), Child(right, s), base + [s]);
      PathsUnderAt(left, right, init, base);
      PathsUnder(Child(left, s), Child(right, s), base + [s]);
      var a, b := DiffAt(left, right, init, base), Diff(Child(left, s), Child(right, s), base + [s]);
      forall d, e | d in a && e in b ensures Earlier(d, e) {
        assert base + [s] <= e.path && (base + [s])[|base|] == s;
        assert base == (base + [s])[..|base|] == e.path[..|base|];
        var i :| 0 <= i < |init| && init[i] == d.path[|base|];
        assert base <= d.path && StepBefore(steps[i], steps[|steps| - 1]);
        assert PathBefore(d.path, e.path, |base|);
      }
      JoinInOrder(a, b);
    }
  }

  lemma JoinInOrder(a: seq<FieldDiff>, b: seq<FieldDiff>)
    requires InOrder(a) && InOrder(b) && forall d, e | d in a && e in b :: Earlier(d, e)
    ensures InOrder(a + b)
  {
    hide Earlier;
    var all := a + b;
    forall i, j | 0 <= i < j < |all| ensures Earlier(all[i], all[j]) {
      if i < |a| <= j { assert a[i] in a && b[j - |a|] in b; }
    }
  }
}
