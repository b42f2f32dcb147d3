/**
 The structural diff of two strategy specs, read as a patch.

 Trees are JSON values; a missing dict key and a missing list item both read as null, so trees are
 compared up to null fields and trailing nulls (`Norm`).
 */
module SpecDiff {
  import opened Base

  datatype Json = Null | Scalar(value: string) | Dict(fields: map<string, Json>) | List(items: seq<Json>)

  datatype Step = Key(name: string) | Index(at: nat)

  datatype FieldDiff = FieldDiff(path: seq<Step>, left: Json, right: Json)

  predicate SameKind(a: Json, b: Json) {
    (a.Dict? && b.Dict?) || (a.List? && b.List?)
  }

  /** The value under a step, null when there is none. */
  function Child(t: Json, s: Step): Json {
    match s
    case Key(name) => if t.Dict? && name in t.fields then t.fields[name] else Null
    case Index(at) => if t.List? && at < |t.items| then t.items[at] else Null
  }

  function Weight(t: Json): nat {
    if t.Dict? || t.List? then 1 else 0
  }

  // ----- the order of the keys -------------------------------------------------------------

  predicate Before(a: string, b: string) {
    if b == "" then false
    else if a == "" then true
    else a[0] < b[0] || (a[0] == b[0] && Before(a[1..], b[1..]))
  }

  lemma {:induction false} BeforeTotal(a: string, b: string)
    ensures a == b || Before(a, b) || Before(b, a)
    ensures !(Before(a, b) && Before(b, a)) && !Before(a, a)
  {
    if a != "" && b != "" {
      BeforeTotal(a[1..], b[1..]);
      assert a == [a[0]] + a[1..] && b == [b[0]] + b[1..];
    }
    if a != "" { BeforeTotal(a[1..], a[1..]); }
  }

  lemma {:induction false} BeforeTransitive(a: string, b: string, c: string)
    requires Before(a, b) && Before(b, c)
    ensures Before(a, c)
  {
    if a != "" && a[0] == b[0] == c[0] { BeforeTransitive(a[1..], b[1..], c[1..]); }
  }

  predicate Least(k: string, keys: set<string>) {
    k in keys && forall j | j in keys :: j == k || Before(k, j)
  }

  lemma {:induction false} LeastExists(keys: set<string>) returns (k: string)
    requires keys != {}
    ensures Least(k, keys)
    decreases keys
  {
    var any :| any in keys;
    var rest := keys - {any};
    if rest == {} {
      k := any;
      assert keys == {any};
    } else {
      var m := LeastExists(rest);
      BeforeTotal(any, m);
      if Before(any, m) {
        k := any;
        forall j | j in keys ensures j == k || Before(k, j) {
          if j != any && j != m { BeforeTransitive(any, m, j); }
        }
      } else {
        k := m;
      }
    }
  }

  /** Some key is least, and only one. */
  lemma LeastUnique(keys: set<string>)
    requires keys != {}
    ensures exists k :: Least(k, keys)
    ensures forall j, k | Least(j, keys) && Least(k, keys) :: j == k
  {
    var k := LeastExists(keys);
    forall i, j | Least(i, keys) && Least(j, keys) ensures i == j { BeforeTotal(i, j); }
  }

  function SortedKeys(keys: set<string>): (r: seq<string>)
    ensures forall k :: k in r <==> k in keys
    ensures forall i, j | 0 <= i < j < |r| :: r[i] != r[j] && Before(r[i], r[j])
    decreases keys
  {
    if keys == {} then []
    else
      LeastUnique(keys);
      var k :| Least(k, keys);
      [k] + SortedKeys(keys - {k})
  }

  // ----- the diff --------------------------------------------------------------------------

  /** The steps at which two values of one kind are compared, in order. */
  function Steps(a: Json, b: Json): seq<Step>
    requires SameKind(a, b)
  {
    if a.Dict? then
      var keys := SortedKeys(a.fields.Keys + b.fields.Keys);
      seq(|keys|, i requires 0 <= i < |keys| => Key(keys[i]))
    else seq(MaxInt(|a.items|, |b.items|), i requires 0 <= i => Index(i))
  }

  function Diff(left: Json, right: Json, path: seq<Step>): seq<FieldDiff>
    decreases Weight(left), left
  {
    if SameKind(left, right) then DiffAt(left, right, Steps(left, right), path)
    else if left != right then [FieldDiff(path, left, right)]
    else []
  }

  function DiffAt(left: Json, right: Json, steps: seq<Step>, path: seq<Step>): seq<FieldDiff>
    requires SameKind(left, right)
    decreases Weight(left), left, |steps|
  {
    if steps == [] then []
    else
      var s := steps[|steps| - 1];
      DiffAt(left, right, steps[..|steps| - 1], path) + Diff(Child(left, s), Child(right, s), path + [s])
  }

  method WalkDiff(left: Json, right: Json, path: seq<Step>) returns (out: seq<FieldDiff>)
    ensures out == Diff(left, right, path)
    decreases Weight(left), left
  {
    out := [];
    if SameKind(left, right) {
      var steps := Steps(left, right);
      DiffIsDiffAt(left, right, path);
      NoSteps(left, right, path);
      hide Diff, DiffAt, Steps;
      for i := 0 to |steps|
        invariant out == DiffAt(left, right, steps[..i], path)
      {
        var more := WalkDiff(Child(left, steps[i]), Child(right, steps[i]), path + [steps[i]]);
        DiffAtSnoc(left, right, steps, i, path);
        out := out + more;
      }
      assert steps[..|steps|] == steps;
    } else if left != right {
      out := [FieldDiff(path, left, right)];
    }
  }

  lemma DiffIsDiffAt(left: Json, right: Json, path: seq<Step>)
    requires SameKind(left, right)
    ensures Diff(left, right, path) == DiffAt(left, right, Steps(left, right), path)
  {}

  lemma NoSteps(left: Json, right: Json, path: seq<Step>)
    requires SameKind(left, right)
    ensures DiffAt(left, right, [], path) == []
  {}

  lemma DiffAtSnoc(left: Json, right: Json, steps: seq<Step>, i: nat, path: seq<Step>)
    requires SameKind(left, right) && i < |steps|
    ensures DiffAt(left, right, steps[..i + 1], path) ==
            DiffAt(left, right, steps[..i], path)
                + Diff(Child(left, steps[i]), Child(right, steps[i]), path + [steps[i]])
  {
    hide Diff;
    assert steps[..i + 1][..i] == steps[..i];
  }

  // ----- steps -----------------------------------------------------------------------------

  predicate Fits(t: Json, s: Step) {
    (t.Dict? && s.Key?) || (t.List? && s.Index?)
  }

  /** Each step once, and nothing under the steps left out. */
  lemma StepsLaw(a: Json, b: Json)
    requires SameKind(a, b)
    ensures forall i, j | 0 <= i < j < |Steps(a, b)| :: Steps(a, b)[i] != Steps(a, b)[j]
    ensures forall s | s in Steps(a, b) :: Fits(a, s)
    ensures forall s: Step | s !in Steps(a, b) :: Child(a, s) == Null && Child(b, s) == Null
  {
    var steps := Steps(a, b);
    forall s: Step | Child(a, s) != Null || Child(b, s) != Null ensures s in steps {
      if a.Dict? {
        var keys := SortedKeys(a.fields.Keys + b.fields.Keys);
        assert s.name in keys;
        var i :| 0 <= i < |keys| && keys[i] == s.name;
        assert steps[i] == s;
      } else {
        assert steps[s.at] == s;
      }
    }
  }

  // ----- equality up to absent and null ----------------------------------------------------

  /** The items up to the last one that is not null. */
  function Trim(items: seq<Json>): (n: nat)
    ensures n <= |items| && (n > 0 ==> items[n - 1] != Null)
    ensures forall i | n <= i < |items| :: items[i] == Null
  {
    if items == [] then 0
    else if items[|items| - 1] != Null then |items|
    else Trim(items[..|items| - 1])
  }

  /** Null fields and trailing nulls dropped at every depth. */
  function Norm(t: Json): Json {
    match t
    case Null => Null
    case Scalar(_) => t
    case Dict(fields) => Dict(map k | k in fields && fields[k] != Null :: Norm(fields[k]))
    case List(items) => List(seq(Trim(items), i requires 0 <= i < Trim(items) => Norm(items[i])))
  }

  ghost predicate Equiv(a: Json, b: Json)
    decreases Weight(a), a
  {
    if SameKind(a, b) then forall s | s in Steps(a, b) :: Equiv(Child(a, s), Child(b, s))
    else a == b
  }

  lemma {:induction false} EquivNull(a: Json, b: Json)
    requires Equiv(a, b)
    ensures a == Null <==> b == Null
  {}

  /** Children decide, at every step. */
  lemma EquivChildren(a: Json, b: Json)
    requires SameKind(a, b)
    ensures Equiv(a, b) <==> forall s: Step :: Equiv(Child(a, s), Child(b, s))
  {
    StepsLaw(a, b);
    forall s: Step | s !in Steps(a, b) ensures Equiv(Child(a, s), Child(b, s)) {}
  }

  lemma {:induction false} EquivIsNormEquality(a: Json, b: Json)
    ensures Equiv(a, b) <==> Norm(a) == Norm(b)
    decreases Weight(a), a
  {
    if SameKind(a, b) {
      EquivChildren(a, b);
      forall s: Step | Fits(a, s) ensures Equiv(Child(a, s), Child(b, s)) <==> Norm(Child(a, s)) == Norm(Child(b, s)) {
        EquivIsNormEquality(Child(a, s), Child(b, s));
      }
      if a.Dict? { DictNorm(a, b); } else { ListNorm(a, b); }
    }
  }

  lemma DictNorm(a: Json, b: Json)
    requires a.Dict? && b.Dict?
    requires forall s: Step | Fits(a, s) :: Equiv(Child(a, s), Child(b, s)) <==> Norm(Child(a, s)) == Norm(Child(b, s))
    ensures Norm(a) == Norm(b) <==> forall s: Step :: Equiv(Child(a, s), Child(b, s))
  {
    hide Norm, Equiv;
    if Norm(a) == Norm(b) { DictNormEquiv(a, b); }
    if forall s: Step :: Equiv(Child(a, s), Child(b, s)) { DictEquivNorm(a, b); }
  }

  lemma NormField(a: Json, k: string)
    requires a.Dict?
    ensures Norm(a).Dict? && (k in Norm(a).fields <==> Child(a, Key(k)) != Null)
    ensures k in Norm(a).fields ==> Norm(a).fields[k] == Norm(Child(a, Key(k)))
  {}

  lemma DictNormEquiv(a: Json, b: Json)
    requires a.Dict? && b.Dict? && Norm(a) == Norm(b)
    requires forall s: Step | Fits(a, s) :: Equiv(Child(a, s), Child(b, s)) <==> Norm(Child(a, s)) == Norm(Child(b, s))
    ensures forall s: Step :: Equiv(Child(a, s), Child(b, s))
  {
    forall s: Step ensures Equiv(Child(a, s), Child(b, s)) {
      if s.Key? {
        hide Norm, Equiv;
        assert Fits(a, s);
        NormField(a, s.name);
        NormField(b, s.name);
      }
    }
  }

  lemma DictEquivNorm(a: Json, b: Json)
    requires a.Dict? && b.Dict? && forall s: Step :: Equiv(Child(a, s), Child(b, s))
    requires forall s: Step | Fits(a, s) :: Equiv(Child(a, s), Child(b, s)) <==> Norm(Child(a, s)) == Norm(Child(b, s))
    ensures Norm(a) == Norm(b)
  {
    hide Norm, Equiv;
    NormField(a, "");
    NormField(b, "");
    forall k: string
      ensures k in Norm(a).fields <==> k in Norm(b).fields
      ensures k in Norm(a).fields ==> Norm(a).fields[k] == Norm(b).fields[k]
    {
      assert Fits(a, Key(k)) && Equiv(Child(a, Key(k)), Child(b, Key(k)));
      NormField(a, k);
      NormField(b, k);
      EquivNull(Child(a, Key(k)), Child(b, Key(k)));
    }
    assert Norm(a).fields == Norm(b).fields;
  }

  lemma ListNorm(a: Json, b: Json)
    requires a.List? && b.List?
    requires forall s: Step | Fits(a, s) :: Equiv(Child(a, s), Child(b, s)) <==> Norm(Child(a, s)) == Norm(Child(b, s))
    ensures Norm(a) == Norm(b) <==> forall s: Step :: Equiv(Child(a, s), Child(b, s))
  {
    if Norm(a) == Norm(b) { ListNormEquiv(a, b); }
    if forall s: Step :: Equiv(Child(a, s), Child(b, s)) { ListEquivNorm(a, b); }
  }

  lemma NormItem(a: Json, i: nat)
    requires a.List?
    ensures Norm(a).List? && |Norm(a).items| == Trim(a.items)
    ensures i < Trim(a.items) ==> Norm(a).items[i] == Norm(Child(a, Index(i)))
    ensures i >= Trim(a.items) ==> Child(a, Index(i)) == Null
  {}

  lemma ListNormEquiv(a: Json, b: Json)
    requires a.List? && b.List? && Norm(a) == Norm(b)
    requires forall s: Step | Fits(a, s) :: Equiv(Child(a, s), Child(b, s)) <==> Norm(Child(a, s)) == Norm(Child(b, s))
    ensures forall s: Step :: Equiv(Child(a, s), Child(b, s))
  {
    forall s: Step ensures Equiv(Child(a, s), Child(b, s)) {
      if s.Index? {
        hide Norm, Equiv, Trim;
        assert Fits(a, s);
        NormItem(a, s.at);
        NormItem(b, s.at);
      }
    }
  }

  lemma ListEquivNorm(a: Json, b: Json)
    requires a.List? && b.List? && forall s: Step :: Equiv(Child(a, s), Child(b, s))
    requires forall s: Step | Fits(a, s) :: Equiv(Child(a, s), Child(b, s)) <==> Norm(Child(a, s)) == Norm(Child(b, s))
    ensures Norm(a) == Norm(b)
  {
    hide Norm, Equiv, Trim;
    NormItem(a, 0);
    NormItem(b, 0);
    var m, n := Trim(a.items), Trim(b.items);
    SameTrim(a, b);
    forall i | 0 <= i < m ensures Norm(a).items[i] == Norm(b).items[i] {
      NormItem(a, i);
      NormItem(b, i);
      assert Fits(a, Index(i)) && Equiv(Child(a, Index(i)), Child(b, Index(i)));
    }
    assert Norm(a).items == Norm(b).items;
  }

  lemma SameTrim(a: Json, b: Json)
    requires a.List? && b.List? && forall s: Step :: Equiv(Child(a, s), Child(b, s))
    ensures Trim(a.items) == Trim(b.items)
  {
    hide Equiv;
    var m, n := Trim(a.items), Trim(b.items);
    if m > 0 { EquivNull(Child(a, Index(m - 1)), Child(b, Index(m - 1))); }
    if n > 0 { EquivNull(Child(a, Index(n - 1)), Child(b, Index(n - 1))); }
  }

  // ----- empty diffs -----------------------------------------------------------------------

  lemma {:induction false} EmptyMeansEquiv(left: Json, right: Json, path: seq<Step>)
    ensures Diff(left, right, path) == [] <==> Equiv(left, right)
    decreases Weight(left), left
  {
    if SameKind(left, right) { EmptyAt(left, right, Steps(left, right), path); }
  }

  lemma {:induction false} EmptyAt(left: Json, right: Json, steps: seq<Step>, path: seq<Step>)
    requires SameKind(left, right)
    ensures DiffAt(left, right, steps, path) == [] <==> forall s | s in steps :: Equiv(Child(left, s), Child(right, s))
    decreases Weight(left), left, |steps|
  {
    hide Equiv, Diff;
    if steps != [] {
      var init, s := steps[..|steps| - 1], steps[|steps| - 1];
      EmptyAt(left, right, init, path);
      EmptyMeansEquiv(Child(left, s), Child(right, s), path + [s]);
      assert steps == init + [s];
      assert |DiffAt(left, right, steps, path)| ==
             |DiffAt(left, right, init, path)| + |Diff(Child(left, s), Child(right, s), path + [s])|;
    }
  }

  /** No difference is listed exactly when the trees are equal. */
  lemma DiffEmptyExact(left: Json, right: Json)
    ensures Diff(left, right, []) == [] <==> Norm(left) == Norm(right)
  {
    EmptyMeansEquiv(left, right, []);
    EquivIsNormEquality(left, right);
  }

  // ----- the diff as a patch ---------------------------------------------------------------

  function Pad(items: seq<Json>, n: nat): seq<Json> {
    if |items| >= n then items else items + seq(n - |items|, _ => Null)
  }

  function Put(t: Json, s: Step, v: Json): Json
    requires Fits(t, s)
  {
    match s
    case Key(name) => Dict(t.fields[name := v])
    case Index(at) => List(Pad(t.items, at + 1)[at := v])
  }

  lemma PutChild(t: Json, s: Step, v: Json)
    requires Fits(t, s)
    ensures SameKind(t, Put(t, s, v)) && Child(Put(t, s, v), s) == v
    ensures forall other: Step | other != s :: Child(Put(t, s, v), other) == Child(t, other)
  {}

  /** Write a value at a path; a path that does not fit the tree leaves it alone. */
  function Write(t: Json, path: seq<Step>, v: Json): Json
    decreases |path|
  {
    if path == [] then v
    else if Fits(t, path[0]) then Put(t, path[0], Write(Child(t, path[0]), path[1..], v))
    else t
  }

  /** Write every right value, in order, reading the paths from position `base` on. */
  function Patch(t: Json, diffs: seq<FieldDiff>, base: nat): Json
    requires forall i | 0 <= i < |diffs| :: base <= |diffs[i].path|
  {
    if diffs == [] then t
    else
      var d := diffs[|diffs| - 1];
      Write(Patch(t, diffs[..|diffs| - 1], base), d.path[base..], d.right)
  }

  ghost predicate Under(diffs: seq<FieldDiff>, path: seq<Step>) {
    forall i | 0 <= i < |diffs| :: path <= diffs[i].path
  }

  lemma {:induction false} PathsUnder(left: Json, right: Json, path: seq<Step>)
    ensures Under(Diff(left, right, path), path)
    decreases Weight(left), left
  {
    if SameKind(left, right) { PathsUnderAt(left, right, Steps(left, right), path); }
  }

  /** Every path goes on with one of the steps. */
  lemma {:induction false} PathsUnderAt(left: Json, right: Json, steps: seq<Step>, path: seq<Step>)
    requires SameKind(left, right)
    ensures Under(DiffAt(left, right, steps, path), path)
    ensures forall d | d in DiffAt(left, right, steps, path) :: |d.path| > |path| && d.path[|path|] in steps
    decreases Weight(left), left, |steps|
  {
    if steps != [] {
      var s := steps[|steps| - 1];
      PathsUnderAt(left, right, steps[..|steps| - 1], path);
      PathsUnder(Child(left, s), Child(right, s), path + [s]);
      forall d | d in Diff(Child(left, s), Child(right, s), path + [s])
        ensures |d.path| > |path| && d.path[|path|] == s
      {
        assert path + [s] <= d.path;
        assert d.path[|path|] == (path + [s])[|path|];
      }
    }
  }

  lemma {:induction false} PatchAppend(t: Json, a: seq<FieldDiff>, b: seq<FieldDiff>, base: nat)
    requires forall i | 0 <= i < |a| :: base <= |a[i].path|
    requires forall i | 0 <= i < |b| :: base <= |b[i].path|
    ensures forall i | 0 <= i < |a + b| :: base <= |(a + b)[i].path|
    ensures Patch(t, a + b, base) == Patch(Patch(t, a, base), b, base)
  {
    if b == [] {
      assert a + b == a;
    } else {
      PatchAppend(t, a, b[..|b| - 1], base);
      assert (a + b)[..|a + b| - 1] == a + b[..|b| - 1];
    }
  }

  /** Differences under one step touch only that child. */
  lemma {:induction false} PatchChild(t: Json, diffs: seq<FieldDiff>, path: seq<Step>, s: Step)
    requires Fits(t, s) && Under(diffs, path + [s])
    ensures SameKind(t, Patch(t, diffs, |path|))
    ensures Child(Patch(t, diffs, |path|), s) == Patch(Child(t, s), diffs, |path| + 1)
    ensures forall other: Step | other != s :: Child(Patch(t, diffs, |path|), other) == Child(t, other)
  {
    if diffs != [] {
      var init, d := diffs[..|diffs| - 1], diffs[|diffs| - 1];
      PatchChild(t, init, path, s);
      var u := Patch(t, init, |path|);
      assert path + [s] <= d.path && (path + [s])[|path|] == s;
      assert d.path[|path|..][0] == s && d.path[|path|..][1..] == d.path[|path| + 1..];
      PutChild(u, s, Write(Child(u, s), d.path[|path| + 1..], d.right));
    }
  }

  lemma {:induction false} PatchRestores(left: Json, right: Json, path: seq<Step>)
    ensures Under(Diff(left, right, path), path)
    ensures Equiv(Patch(left, Diff(left, right, path), |path|), right)
    decreases Weight(left), left
  {
    PathsUnder(left, right, path);
    if SameKind(left, right) {
      StepsLaw(left, right);
      PatchRestoresAt(left, right, Steps(left, right), path);
      var patched := Patch(left, Diff(left, right, path), |path|);
      forall s: Step ensures Equiv(Child(patched, s), Child(right, s)) {}
      EquivChildren(patched, right);
    } else if left != right {
      var d := FieldDiff(path, left, right);
      assert Diff(left, right, path) == [d] && [d][..0] == [];
      assert d.path[|path|..] == [];
      EquivReflexive(right);
    }
  }

  lemma {:induction false} EquivReflexive(a: Json)
    ensures Equiv(a, a)
  {
    EquivIsNormEquality(a, a);
  }

  /** The children under `steps` agree with the right tree, the others are those of the left one. */
  ghost predicate AgreesAt(left: Json, right: Json, patched: Json, steps: seq<Step>) {
    && SameKind(left, patched)
    && (forall s | s in steps :: Equiv(Child(patched, s), Child(right, s)))
    && (forall s: Step | s !in steps :: Child(patched, s) == Child(left, s))
  }

  /** One more step: its child now agrees, the rest stays. */
  lemma AgreesNext(left: Json, right: Json, before: Json, patched: Json, steps: seq<Step>, s: Step)
    requires AgreesAt(left, right, before, steps) && s !in steps && SameKind(before, patched)
    requires Equiv(Child(patched, s), Child(right, s))
    requires forall other: Step | other != s :: Child(patched, other) == Child(before, other)
    ensures AgreesAt(left, right, patched, steps + [s])
  {
    hide Equiv, Child;
  }

  /** Distinct steps, all of the tree's kind. */
  ghost predicate Usable(left: Json, steps: seq<Step>) {
    && (forall i, j | 0 <= i < j < |steps| :: steps[i] != steps[j])
    && (forall s | s in steps :: Fits(left, s))
  }

  lemma UsableInit(left: Json, steps: seq<Step>)
    requires Usable(left, steps) && steps != []
    ensures var init, s := steps[..|steps| - 1], steps[|steps| - 1];
            steps == init + [s] && s !in init && Usable(left, init) && Fits(left, s)
  {}

  lemma {:induction false} PatchRestoresAt(left: Json, right: Json, steps: seq<Step>, path: seq<Step>)
    requires SameKind(left, right) && Usable(left, steps)
    ensures Under(DiffAt(left, right, steps, path), path)
    ensures AgreesAt(left, right, Patch(left, DiffAt(left, right, steps, path), |path|), steps)
    decreases Weight(left), left, |steps|
  {
    hide Equiv, Diff, DiffAt, Patch, Fits, AgreesAt, Under, Usable;
    if steps == [] {
      NoDiffs(left, right, path);
    } else {
      var init, s := steps[..|steps| - 1], steps[|steps| - 1];
      UsableInit(left, steps);
      PatchRestoresAt(left, right, init, path);
      PatchRestores(Child(left, s), Child(right, s), path + [s]);
      StepRestores(left, right, init, s, path);
    }
  }

  lemma NoDiffs(left: Json, right: Json, path: seq<Step>)
    requires SameKind(left, right)
    ensures Under(DiffAt(left, right, [], path), path)
    ensures AgreesAt(left, right, Patch(left, DiffAt(left, right, [], path), |path|), [])
  {
    NoSteps(left, right, path);
    NoPatch(left, right, |path|);
  }

  /** Applying the differences under the next step. */
  lemma StepRestores(left: Json, right: Json, init: seq<Step>, s: Step, path: seq<Step>)
    requires SameKind(left, right) && Fits(left, s) && s !in init
    requires var diffs := DiffAt(left, right, init, path);
             Under(diffs, path) && AgreesAt(left, right, Patch(left, diffs, |path|), init)
    requires var more := Diff(Child(left, s), Child(right, s), path + [s]);
             Under(more, path + [s]) && Equiv(Patch(Child(left, s), more, |path| + 1), Child(right, s))
    ensures Under(DiffAt(left, right, init + [s], path), path)
    ensures AgreesAt(left, right, Patch(left, DiffAt(left, right, init + [s], path), |path|), init + [s])
  {
    hide Equiv, Diff, Patch, Child;
    var diffs, more := DiffAt(left, right, init, path), Diff(Child(left, s), Child(right, s), path + [s]);
    var before := Patch(left, diffs, |path|);
    assert (init + [s])[..|init|] == init;
    assert DiffAt(left, right, init + [s], path) == diffs + more;
    PathsUnderAt(left, right, init + [s], path);
    PatchAppend(left, diffs, more, |path|);
    PatchChild(before, more, path, s);
    AgreesNext(left, right, before, Patch(before, more, |path|), init, s);
  }

  lemma NoPatch(t: Json, right: Json, base: nat)
    requires SameKind(t, right)
    ensures Patch(t, [], base) == t && AgreesAt(t, right, t, [])
  {}

  /** Writing each right value at its path turns the left tree into the right one. */
  lemma DiffIsPatch(left: Json, right: Json)
    ensures Norm(Patch(left, Diff(left, right, []), 0)) == Norm(right)
  {
    PatchRestores(left, right, []);
    EquivIsNormEquality(Patch(left, Diff(left, right, []), 0), right);
  }

  // ----- the listed paths ------------------------------------------------------------------

  ghost predicate Apart(p: seq<Step>, q: seq<Step>) {
    !(p <= q) && !(q <= p)
  }

  /** No two paths are equal, and none leads through another. */
  ghost predicate Antichain(diffs: seq<FieldDiff>) {
    forall i, j | 0 <= i < j < |diffs| :: Apart(diffs[i].path, diffs[j].path)
  }

  lemma {:induction false} DiffAntichain(left: Json, right: Json, path: seq<Step>)
    ensures Antichain(Diff(left, right, path))
    decreases Weight(left), left
  {
    if SameKind(left, right) {
      StepsLaw(left, right);
      AntichainAt(left, right, Steps(left, right), path);
    }
  }

  lemma {:induction false} AntichainAt(left: Json, right: Json, steps: seq<Step>, path: seq<Step>)
    requires SameKind(left, right) && forall i, j | 0 <= i < j < |steps| :: steps[i] != steps[j]
    ensures Antichain(DiffAt(left, right, steps, path))
    decreases Weight(left), left, |steps|
  {
    if steps != [] {
      var init, s := steps[..|steps| - 1], steps[|steps| - 1];
      AntichainAt(left, right, init, path);
      DiffAntichain(Child(left, s), Child(right, s), path + [s]);
      PathsUnderAt(left, right, init, path);
      PathsUnder(Child(left, s), Child(right, s), path + [s]);
      var a, b := DiffAt(left, right, init, path), Diff(Child(left, s), Child(right, s), path + [s]);
      assert s !in init;
      forall d, e | d in a && e in b ensures Apart(d.path, e.path) {
        assert path + [s] <= e.path && (path + [s])[|path|] == s;
        assert d.path[|path|] != e.path[|path|];
      }
    }
  }

  /** The value at a path. */
  function At(t: Json, path: seq<Step>): Json
    decreases |path|
  {
    if path == [] then t else At(Child(t, path[0]), path[1..])
  }

  /** Read from position `base` of its path on, the difference shows both values there, and they differ. */
  ghost predicate ShowsBoth(d: FieldDiff, left: Json, right: Json, base: nat) {
    && base <= |d.path| && d.left == At(left, d.path[base..]) && d.right == At(right, d.path[base..])
    && !Equiv(d.left, d.right)
  }

  /** Each difference shows the two values at its path, and they do differ. */
  lemma {:induction false} DiffTruthful(left: Json, right: Json, path: seq<Step>)
    ensures forall d | d in Diff(left, right, path) :: ShowsBoth(d, left, right, |path|)
    decreases Weight(left), left
  {
    if SameKind(left, right) {
      TruthfulAt(left, right, Steps(left, right), path);
    } else if left != right {
      assert path[|path|..] == [];
    }
  }

  /** A difference under a step, seen from above that step. */
  lemma ShowsAbove(d: FieldDiff, left: Json, right: Json, path: seq<Step>, s: Step)
    requires path + [s] <= d.path && ShowsBoth(d, Child(left, s), Child(right, s), |path| + 1)
    ensures ShowsBoth(d, left, right, |path|)
  {
    hide Equiv, Child;
    assert d.path[|path|] == (path + [s])[|path|] == s;
    assert d.path[|path|..][1..] == d.path[|path| + 1..];
  }

  lemma {:induction false} TruthfulAt(left: Json, right: Json, steps: seq<Step>, path: seq<Step>)
    requires SameKind(left, right)
    ensures forall d | d in DiffAt(left, right, steps, path) :: ShowsBoth(d, left, right, |path|)
    decreases Weight(left), left, |steps|
  {
    hide Diff, ShowsBoth;
    if steps != [] {
      var init, s := steps[..|steps| - 1], steps[|steps| - 1];
      TruthfulAt(left, right, init, path);
      DiffTruthful(Child(left, s), Child(right, s), path + [s]);
      PathsUnder(Child(left, s), Child(right, s), path + [s]);
      forall d | d in Diff(Child(left, s), Child(right, s), path + [s]) ensures ShowsBoth(d, left, right, |path|) {
        ShowsAbove(d, left, right, path, s);
      }
    }
  }
}
