/** Nested maps as trees, the dotted paths of their nodes, and the strings those paths are joined to. */
module NestedMap {
  import opened Options

  datatype Scalar = Nil | Val(n: int)

  datatype Value = Leaf(v: Scalar) | Node(kids: map<string, Value>)

  type Path = seq<string>

  function At(t: Value, ks: Path): Option<Value> {
    if ks == [] then Some(t)
    else if t.Node? && ks[0] in t.kids then At(t.kids[ks[0]], ks[1..])
    else None
  }

  function Joined(ks: Path, d: string): string {
    if ks == [] then "" else if |ks| == 1 then ks[0] else ks[0] + d + Joined(ks[1..], d)
  }

  /** The tree has leaf `v` at a path that joins to `s`. */
  ghost predicate LeafAt(t: Value, d: string, ks: Path, s: string, v: Scalar) {
    ks != [] && Joined(ks, d) == s && At(t, ks) == Some(Leaf(v))
  }

  ghost predicate FlatAt(t: Value, d: string, s: string, v: Scalar) {
    exists ks :: LeafAt(t, d, ks, s, v)
  }

  lemma Under(t: Value, d: string, k: string, ks: Path)
    requires t.Node? && k in t.kids && ks != []
    ensures At(t, [k] + ks) == At(t.kids[k], ks)
    ensures Joined([k] + ks, d) == k + d + Joined(ks, d)
  {
    assert ([k] + ks)[1..] == ks;
  }

  lemma Below(t: Value, d: string, k: string, ks: Path, s: string, v: Scalar)
    requires LeafAt(t, d, ks, s, v) && ks[0] == k && t.Node? && k in t.kids && t.kids[k].Node?
    ensures ks[1..] != [] && ks == [k] + ks[1..]
    ensures LeafAt(t.kids[k], d, ks[1..], Joined(ks[1..], d), v) && s == k + d + Joined(ks[1..], d)
  {
    assert ks == [k] + ks[1..];
    assert At(t, ks) == At(t.kids[k], ks[1..]);
  }

  /** There is nothing below a leaf. */
  lemma OnlyPath(t: Value, d: string, ks: Path, s: string, v: Scalar)
    requires LeafAt(t, d, ks, s, v) && t.Node? && ks[0] in t.kids && t.kids[ks[0]].Leaf?
    ensures ks == [ks[0]] && s == ks[0] && t.kids[ks[0]] == Leaf(v)
  {
    assert At(t, ks) == At(t.kids[ks[0]], ks[1..]);
    assert ks == [ks[0]] + ks[1..];
  }

  // ---- Trees whose leaves do not get into each other's way ----

  /** The leaves at a joined path agree on its value. */
  ghost predicate Consistent(t: Value, d: string) {
    forall s, v, w :: FlatAt(t, d, s, v) && FlatAt(t, d, s, w) ==> v == w
  }

  /** Each leaf has a joined path of its own. */
  ghost predicate OwnKeys(t: Value, d: string) {
    forall a, b, s, v, w :: LeafAt(t, d, a, s, v) && LeafAt(t, d, b, s, w) ==> a == b
  }

  ghost predicate HasLeaf(t: Value) {
    exists ks, v :: ks != [] && At(t, ks) == Some(Leaf(v))
  }

  /** A leaf from elsewhere in the map joins to the very key of a submap that has a leaf itself. */
  ghost predicate MeetingAt(t: Value, d: string, k: string, v: Scalar) {
    t.Node? && k in t.kids && t.kids[k].Node? && HasLeaf(t.kids[k]) && FlatAt(t, d, k, v)
  }

  /** Nowhere in the tree. */
  ghost predicate NoMeeting(t: Value, d: string)
    decreases t
  {
    t.Node? ==> (forall k, v :: !MeetingAt(t, d, k, v)) && forall k :: k in t.kids ==> NoMeeting(t.kids[k], d)
  }

  /** The simple case: the joined path of a leaf is that of no other node. */
  ghost predicate NoClash(t: Value, d: string) {
    forall a, b ::
      a != [] && b != [] && At(t, a).Some? && At(t, a).value.Leaf? && At(t, b).Some? && Joined(a, d) == Joined(b, d)
      ==> a == b
  }

  lemma KidOwnKeys(t: Value, d: string, k: string)
    requires OwnKeys(t, d) && t.Node? && k in t.kids
    ensures OwnKeys(t.kids[k], d)
  {
    forall a, b, s, v, w | LeafAt(t.kids[k], d, a, s, v) && LeafAt(t.kids[k], d, b, s, w) ensures a == b {
      Under(t, d, k, a);
      Under(t, d, k, b);
      assert LeafAt(t, d, [k] + a, k + d + s, v) && LeafAt(t, d, [k] + b, k + d + s, w);
      assert ([k] + a)[1..] == a && ([k] + b)[1..] == b;
    }
  }

  lemma KidConsistent(t: Value, d: string, k: string)
    requires Consistent(t, d) && t.Node? && k in t.kids
    ensures Consistent(t.kids[k], d)
  {
    forall s, v, w | FlatAt(t.kids[k], d, s, v) && FlatAt(t.kids[k], d, s, w) ensures v == w {
      KidFlatAt(t, d, k, s, v);
      KidFlatAt(t, d, k, s, w);
    }
  }

  lemma KidFlatAt(t: Value, d: string, k: string, s: string, v: Scalar)
    requires t.Node? && k in t.kids && FlatAt(t.kids[k], d, s, v)
    ensures FlatAt(t, d, k + d + s, v)
  {
    var ks :| LeafAt(t.kids[k], d, ks, s, v);
    Under(t, d, k, ks);
    assert LeafAt(t, d, [k] + ks, k + d + s, v);
  }

  lemma OwnKeysConsistent(t: Value, d: string)
    requires OwnKeys(t, d)
    ensures Consistent(t, d)
  {
    forall s, v, w | FlatAt(t, d, s, v) && FlatAt(t, d, s, w) ensures v == w {
      var a :| LeafAt(t, d, a, s, v);
      var b :| LeafAt(t, d, b, s, w);
    }
  }

  lemma OneKey(t: Value, d: string, k: string)
    requires t.Node? && k in t.kids
    ensures At(t, [k]) == Some(t.kids[k]) && Joined([k], d) == k
  {
    assert [k][1..] == [];
    assert At(t.kids[k], []) == Some(t.kids[k]);
  }

  lemma {:induction false} NoClashFits(t: Value, d: string)
    requires NoClash(t, d)
    ensures OwnKeys(t, d) && NoMeeting(t, d)
    decreases t
  {
    assert OwnKeys(t, d);
    if t.Node? {
      forall k, v ensures !MeetingAt(t, d, k, v) {
        if MeetingAt(t, d, k, v) {
          var ks :| LeafAt(t, d, ks, k, v);
          OneKey(t, d, k);
        }
      }
      forall k | k in t.kids ensures NoMeeting(t.kids[k], d) {
        KidNoClash(t, d, k);
        NoClashFits(t.kids[k], d);
      }
    }
  }

  lemma KidNoClash(t: Value, d: string, k: string)
    requires NoClash(t, d) && t.Node? && k in t.kids
    ensures NoClash(t.kids[k], d)
  {
    forall a: Path, b: Path
      | a != [] && b != [] && At(t.kids[k], a).Some? && At(t.kids[k], a).value.Leaf? && At(t.kids[k], b).Some?
        && Joined(a, d) == Joined(b, d)
      ensures a == b
    {
      Under(t, d, k, a);
      Under(t, d, k, b);
      assert [k] + a == [k] + b;
      assert ([k] + a)[1..] == a && ([k] + b)[1..] == b;
    }
  }

  // ---- Splitting at dots ----

  /** strings.Split with a one-character separator. */
  function Split(s: string, sep: char): (ks: Path)
    ensures ks != []
  {
    if s == "" then [""]
    else
      var rest := Split(s[1..], sep);
      if s[0] == sep then [""] + rest else [[s[0]] + rest[0]] + rest[1..]
  }

  predicate Free(k: string, sep: char) {
    sep !in k
  }

  ghost predicate AllFree(ks: Path, sep: char) {
    forall i :: 0 <= i < |ks| ==> Free(ks[i], sep)
  }

  lemma {:induction false} SplitThenJoin(s: string, sep: char)
    ensures Joined(Split(s, sep), [sep]) == s && AllFree(Split(s, sep), sep)
    decreases |s|
  {
    if s != "" {
      SplitThenJoin(s[1..], sep);
      var rest := Split(s[1..], sep);
      if s[0] == sep {
        assert ([""] + rest)[1..] == rest;
        assert s == [sep] + s[1..];
      } else {
        var first := [s[0]] + rest[0];
        JoinedFirst(rest, [s[0]], [sep]);
        assert s == [s[0]] + s[1..];
      }
    }
  }

  lemma JoinedFirst(ks: Path, p: string, d: string)
    requires ks != []
    ensures Joined([p + ks[0]] + ks[1..], d) == p + Joined(ks, d)
  {
    assert ([p + ks[0]] + ks[1..])[1..] == ks[1..];
    if |ks| > 1 { assert p + ks[0] + d + Joined(ks[1..], d) == p + (ks[0] + d + Joined(ks[1..], d)); }
  }

  lemma {:induction false} SplitFree(k: string, sep: char)
    requires Free(k, sep)
    ensures Split(k, sep) == [k]
    decreases |k|
  {
    if k != "" {
      assert Free(k[1..], sep);
      SplitFree(k[1..], sep);
      assert k == [k[0]] + k[1..];
    }
  }

  lemma {:induction false} SplitAfter(k: string, rest: string, sep: char)
    requires Free(k, sep)
    ensures Split(k + [sep] + rest, sep) == [k] + Split(rest, sep)
    decreases |k|
  {
    var s := k + [sep] + rest;
    if k == "" {
      assert s == [sep] + rest && s[1..] == rest;
    } else {
      assert Free(k[1..], sep);
      SplitAfter(k[1..], rest, sep);
      assert s[1..] == k[1..] + [sep] + rest;
      assert k == [k[0]] + k[1..];
    }
  }

  /** Splitting undoes joining, and joins tell paths apart, when no key has the separator. */
  lemma {:induction false} JoinThenSplit(ks: Path, sep: char)
    requires ks != [] && AllFree(ks, sep)
    ensures Split(Joined(ks, [sep]), sep) == ks
    decreases |ks|
  {
    hide Split;
    hide Free;
    if |ks| == 1 {
      SplitFree(ks[0], sep);
      assert ks == [ks[0]];
    } else {
      var rest := ks[1..];
      JoinThenSplit(rest, sep);
      SplitAfter(ks[0], Joined(rest, [sep]), sep);
      assert ks == [ks[0]] + rest;
    }
  }

  /** No key of the tree has the separator. */
  ghost predicate KeysFree(t: Value, sep: char)
    decreases t
  {
    t.Node? ==> forall k :: k in t.kids ==> Free(k, sep) && KeysFree(t.kids[k], sep)
  }

  lemma {:induction false} PathsFree(t: Value, sep: char, ks: Path)
    requires KeysFree(t, sep) && At(t, ks).Some?
    ensures AllFree(ks, sep)
    decreases |ks|
  {
    if ks != [] { PathsFree(t.kids[ks[0]], sep, ks[1..]); }
  }

  lemma KeysFreeNoClash(t: Value, sep: char)
    requires KeysFree(t, sep)
    ensures NoClash(t, [sep])
  {
    forall a: Path, b: Path
      | a != [] && b != [] && At(t, a).Some? && At(t, b).Some? && Joined(a, [sep]) == Joined(b, [sep])
      ensures a == b
    {
      PathsFree(t, sep, a);
      PathsFree(t, sep, b);
      JoinThenSplit(a, sep);
      JoinThenSplit(b, sep);
    }
  }
}
