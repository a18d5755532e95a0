/** What FlattenMap makes of a tree, by the order in which its ranges visit keys, and for which trees that order does
    not matter. */
module FlattenOrder {
  import opened Options
  import opened NestedMap

  type Kids = map<string, Value>

  /** One key that a range comes to, and how the submap found there is ranged over in its turn. */
  datatype Step = Step(key: string, sub: seq<Step>)

  predicate HasPrefix(s: string, p: string) {
    |p| <= |s| && s[..|p|] == p
  }

  predicate IsLifted(r: Kids, p: string, s: string) {
    HasPrefix(s, p) && s[|p|..] in r
  }

  /** The entries of a submap added under prefixed keys. */
  function Up(now: Kids, r: Kids, p: string): Kids {
    map s | s in now.Keys + (set x | x in r :: p + x) :: if IsLifted(r, p, s) then r[s[|p|..]] else now[s]
  }

  /** A turn of the range: a submap is flattened, moved up and dropped; anything else stays. */
  function Turn(now: Kids, d: string, st: Step): Kids
    decreases st, 0
  {
    if st.key in now && now[st.key].Node?
    then Up(now, Exec(now[st.key].kids, d, st.sub), st.key + d) - {st.key}
    else now
  }

  function Exec(now: Kids, d: string, steps: seq<Step>): Kids
    decreases steps, 1
  {
    if steps == [] then now
    else Turn(Exec(now, d, steps[..|steps| - 1]), d, steps[|steps| - 1])
  }

  /** A turn at a submap: its entries, flattened, are in the map under prefixed keys, in the place of whatever was
      there; the submap itself is gone, and all else is as it was. */
  lemma TurnDoes(now: Kids, d: string, st: Step)
    requires st.key in now && now[st.key].Node?
    ensures var n, r, p := Turn(now, d, st), Exec(now[st.key].kids, d, st.sub), st.key + d;
      && st.key !in n
      && (forall x :: x in r && p + x != st.key ==> p + x in n && n[p + x] == r[x])
      && (forall s :: s != st.key && (forall x :: x in r ==> p + x != s) ==>
            (s in n <==> s in now) && (s in n ==> n[s] == now[s]))
  {
    hide Exec;
    var n, r, p := Turn(now, d, st), Exec(now[st.key].kids, d, st.sub), st.key + d;
    forall x | x in r ensures IsLifted(r, p, p + x) && (p + x)[|p|..] == x {
    }
    forall s ensures IsLifted(r, p, s) <==> exists x :: x in r && p + x == s {
      if IsLifted(r, p, s) { assert p + s[|p|..] == s; }
    }
  }

  /** At anything else a turn does nothing. */
  lemma TurnSkips(now: Kids, d: string, st: Step)
    requires st.key !in now || now[st.key].Leaf?
    ensures Turn(now, d, st) == now
  {
  }

  function KeysOf(steps: seq<Step>): set<string> {
    set i | 0 <= i < |steps| :: steps[i].key
  }

  /** A range visits keys that are there, none twice. It may come to those it has inserted itself. */
  ghost predicate Legal(now: Kids, d: string, steps: seq<Step>)
    decreases steps, 1
  {
    steps == [] ||
    (Legal(now, d, steps[..|steps| - 1])
     && LegalTurn(Exec(now, d, steps[..|steps| - 1]), d, KeysOf(steps[..|steps| - 1]), steps[|steps| - 1]))
  }

  ghost predicate LegalTurn(now: Kids, d: string, visited: set<string>, st: Step)
    decreases st, 0
  {
    st.key in now && st.key !in visited && (now[st.key].Node? ==> Complete(now[st.key].kids, d, st.sub))
  }

  /** It ends once the keys that it began with are visited or gone. */
  ghost predicate Complete(now: Kids, d: string, steps: seq<Step>)
    decreases steps, 2
  {
    Legal(now, d, steps) && forall k :: k in now && k in Exec(now, d, steps) ==> k in KeysOf(steps)
  }

  // ---- Turns and leaves ----

  /** A map with leaves only, and just those of the tree, under their joined paths. */
  ghost predicate Flat(m: Kids, t: Value, d: string) {
    && (forall s :: s in m ==> m[s].Leaf? && FlatAt(t, d, s, m[s].v))
    && (forall s, v :: FlatAt(t, d, s, v) ==> s in m && m[s] == Leaf(v))
  }

  /** Leaves only, and none that the tree does not have. */
  ghost predicate Sound(m: Kids, t: Value, d: string) {
    forall s :: s in m ==> m[s].Leaf? && FlatAt(t, d, s, m[s].v)
  }

  lemma LiftedSplit(p: string, s: string)
    requires HasPrefix(s, p)
    ensures s == p + s[|p|..]
  {
  }

  lemma LiftedIs(r: Kids, p: string, x: string)
    ensures IsLifted(r, p, p + x) <==> x in r
    ensures HasPrefix(p + x, p) && (p + x)[|p|..] == x
  {
  }

  lemma UpKeys(now: Kids, r: Kids, p: string, s: string)
    ensures s in Up(now, r, p) <==> s in now || IsLifted(r, p, s)
    ensures IsLifted(r, p, s) ==> s in Up(now, r, p) && Up(now, r, p)[s] == r[s[|p|..]]
    ensures !IsLifted(r, p, s) && s in now ==> Up(now, r, p)[s] == now[s]
  {
    if IsLifted(r, p, s) {
      LiftedSplit(p, s);
      assert s[|p|..] in r && s in (set x | x in r :: p + x);
    }
    forall x | x in r ensures IsLifted(r, p, p + x) { LiftedIs(r, p, x); }
  }

  /** The map after the submap `r` of key `k` has been moved up and dropped. */
  function Raised(now: Kids, r: Kids, d: string, k: string): Kids {
    Up(now, r, k + d) - {k}
  }

  /** Where a leaf of the raised map comes from: the submap, or an entry that is still there. */
  lemma RaisedFrom(now: Kids, r: Kids, d: string, k: string, q: Path, s: string, v: Scalar) returns (ks: Path)
    requires k in now && now[k].Node? && Sound(r, now[k], d) && LeafAt(Node(Raised(now, r, d, k)), d, q, s, v)
    ensures LeafAt(Node(now), d, ks, s, v)
    ensures q[0] in Raised(now, r, d, k) && q[0] != k
    ensures || (ks == q && !IsLifted(r, k + d, q[0]) && q[0] in now && now[q[0]] == Raised(now, r, d, k)[q[0]])
            || (ks[0] == k && q == [s] && IsLifted(r, k + d, s))
  {
    var next := Raised(now, r, d, k);
    UpKeys(now, r, k + d, q[0]);
    assert q == [q[0]] + q[1..];
    if IsLifted(r, k + d, q[0]) {
      var x := q[0][|k + d|..];
      OnlyPath(Node(next), d, q, s, v);
      LiftedSplit(k + d, q[0]);
      assert FlatAt(now[k], d, x, r[x].v);
      var ks' :| LeafAt(now[k], d, ks', x, v);
      Under(Node(now), d, k, ks');
      ks := [k] + ks';
    } else {
      ks := q;
      assert At(Node(now), q) == At(Node(next), q);
    }
  }

  lemma RaisedSound(now: Kids, r: Kids, d: string, k: string, s: string, v: Scalar)
    requires k in now && now[k].Node? && Sound(r, now[k], d) && FlatAt(Node(Raised(now, r, d, k)), d, s, v)
    ensures FlatAt(Node(now), d, s, v)
  {
    var q :| LeafAt(Node(Raised(now, r, d, k)), d, q, s, v);
    var ks := RaisedFrom(now, r, d, k, q, s, v);
  }

  /** No submap that has a leaf, `k` included, is where an entry of the submap `r` of `k` goes. */
  ghost predicate Clear(now: Kids, r: Kids, d: string, k: string) {
    forall j :: j in now && now[j].Node? && HasLeaf(now[j]) ==> !IsLifted(r, k + d, j)
  }

  lemma NoMeetingClear(now: Kids, r: Kids, d: string, k: string)
    requires k in now && now[k].Node? && Sound(r, now[k], d) && forall j, w :: !MeetingAt(Node(now), d, j, w)
    ensures Clear(now, r, d, k)
  {
    forall j | j in now && now[j].Node? && HasLeaf(now[j]) ensures !IsLifted(r, k + d, j) {
      if IsLifted(r, k + d, j) {
        var x := j[|k + d|..];
        LiftedSplit(k + d, j);
        KidFlatAt(Node(now), d, k, x, r[x].v);
        assert MeetingAt(Node(now), d, j, r[x].v);
      }
    }
  }

  /** Then nothing is lost. */
  lemma RaisedKeeps(now: Kids, r: Kids, d: string, k: string, s: string, v: Scalar)
    requires k in now && now[k].Node? && Flat(r, now[k], d)
    requires Consistent(Node(now), d) && Clear(now, r, d, k)
    requires FlatAt(Node(now), d, s, v)
    ensures FlatAt(Node(Raised(now, r, d, k)), d, s, v)
  {
    var ks :| LeafAt(Node(now), d, ks, s, v);
    var t, next, j := Node(now), Raised(now, r, d, k), ks[0];
    assert ks == [j] + ks[1..];
    UpKeys(now, r, k + d, j);
    if j == k {
      Below(t, d, k, ks, s, v);
      var x := Joined(ks[1..], d);
      assert FlatAt(now[k], d, x, v);
      LiftedIs(r, k + d, x);
      UpKeys(now, r, k + d, s);
      KidHasLeaf(t, d, k, ks, s, v);
      SingleLeaf(next, d, s, v);
    } else if IsLifted(r, k + d, j) {
      var x := j[|k + d|..];
      LiftedSplit(k + d, j);
      KidFlatAt(t, d, k, x, r[x].v);
      if now[j].Node? {
        KidHasLeaf(t, d, j, ks, s, v);
        assert false;
      } else {
        OnlyPath(t, d, ks, s, v);
        assert FlatAt(t, d, s, r[x].v);
        SingleLeaf(next, d, s, v);
      }
    } else {
      assert next[j] == now[j];
      assert At(Node(next), ks) == At(t, ks);
      assert LeafAt(Node(next), d, ks, s, v);
    }
  }

  lemma KidHasLeaf(t: Value, d: string, k: string, ks: Path, s: string, v: Scalar)
    requires LeafAt(t, d, ks, s, v) && ks[0] == k && t.Node? && k in t.kids && t.kids[k].Node?
    ensures HasLeaf(t.kids[k])
  {
    Below(t, d, k, ks, s, v);
    assert At(t.kids[k], ks[1..]) == Some(Leaf(v));
  }

  lemma SingleLeaf(m: Kids, d: string, s: string, v: Scalar)
    requires s in m && m[s] == Leaf(v)
    ensures FlatAt(Node(m), d, s, v)
  {
    assert [s][1..] == [];
    assert LeafAt(Node(m), d, [s], s, v);
  }

  // ---- Every order ----

  /** Submaps that are still there are as they were, and not visited. */
  ghost predicate Shape(kids: Kids, m: Kids, visited: set<string>) {
    forall k :: k in m && m[k].Node? ==> k in kids && m[k] == kids[k] && k !in visited
  }

  /** The leaves of a map, seen as a tree, are leaves of another. */
  ghost predicate Within(m: Kids, kids: Kids, d: string) {
    forall s, v :: FlatAt(Node(m), d, s, v) ==> FlatAt(Node(kids), d, s, v)
  }

  lemma KeysSnoc(steps: seq<Step>)
    requires steps != []
    ensures KeysOf(steps) == KeysOf(steps[..|steps| - 1]) + {steps[|steps| - 1].key}
  {
    var n := |steps| - 1;
    forall k ensures k in KeysOf(steps) <==> k in KeysOf(steps[..n]) || k == steps[n].key {
      if k in KeysOf(steps[..n]) {
        var i :| 0 <= i < n && steps[..n][i].key == k;
        assert steps[i].key == k;
      }
      if k in KeysOf(steps) {
        var i :| 0 <= i < |steps| && steps[i].key == k;
        assert i < n ==> steps[..n][i].key == k;
      }
      assert steps[n].key in KeysOf(steps);
    }
  }

  lemma RaisedShape(kids: Kids, m: Kids, visited: set<string>, r: Kids, d: string, k: string)
    requires Shape(kids, m, visited) && forall s :: s in r ==> r[s].Leaf?
    ensures Shape(kids, Raised(m, r, d, k), visited + {k})
  {
    var next := Raised(m, r, d, k);
    forall s | s in next && next[s].Node? ensures s in kids && next[s] == kids[s] && s !in visited + {k} {
      UpKeys(m, r, k + d, s);
    }
  }

  lemma ExecLast(kids: Kids, d: string, steps: seq<Step>)
    requires steps != []
    ensures var m, st := Exec(kids, d, steps[..|steps| - 1]), steps[|steps| - 1];
      Exec(kids, d, steps) == if st.key in m && m[st.key].Node?
                              then Raised(m, Exec(m[st.key].kids, d, st.sub), d, st.key) else m
  {
  }

  /** Whatever order: nothing is made up, and submaps are left alone until they are visited. */
  lemma {:induction false} LegalSound(kids: Kids, d: string, steps: seq<Step>)
    requires Legal(kids, d, steps)
    ensures Within(Exec(kids, d, steps), kids, d) && Shape(kids, Exec(kids, d, steps), KeysOf(steps))
    decreases steps, 0
  {
    if steps != [] {
      var front, st := steps[..|steps| - 1], steps[|steps| - 1];
      var m := Exec(kids, d, front);
      LegalSound(kids, d, front);
      KeysSnoc(steps);
      ExecLast(kids, d, steps);
      if m[st.key].Node? {
        var r := Exec(m[st.key].kids, d, st.sub);
        CompleteSound(m[st.key].kids, d, st.sub);
        RaisedShape(kids, m, KeysOf(front), r, d, st.key);
        forall s, v | FlatAt(Node(Exec(kids, d, steps)), d, s, v) ensures FlatAt(Node(kids), d, s, v) {
          RaisedSound(m, r, d, st.key, s, v);
        }
      }
    }
  }

  /** When the range has ended there are no submaps left. */
  lemma {:induction false} CompleteSound(kids: Kids, d: string, steps: seq<Step>)
    requires Complete(kids, d, steps)
    ensures Sound(Exec(kids, d, steps), Node(kids), d)
    decreases steps, 1
  {
    LegalSound(kids, d, steps);
    var m := Exec(kids, d, steps);
    forall s | s in m ensures m[s].Leaf? && FlatAt(Node(kids), d, s, m[s].v) {
      SingleLeaf(m, d, s, m[s].v);
    }
  }

  ghost predicate Harmless(t: Value, d: string) {
    Consistent(t, d) && NoMeeting(t, d)
  }

  lemma WithinHarmless(kids: Kids, m: Kids, visited: set<string>, d: string)
    requires Harmless(Node(kids), d) && Within(m, kids, d) && Shape(kids, m, visited)
    ensures Consistent(Node(m), d) && forall j, w :: !MeetingAt(Node(m), d, j, w)
  {
    forall j, w ensures !MeetingAt(Node(m), d, j, w) {
      assert !MeetingAt(Node(kids), d, j, w);
    }
  }

  lemma {:induction false} LegalKeeps(kids: Kids, d: string, steps: seq<Step>, s: string, v: Scalar)
    requires Legal(kids, d, steps) && Harmless(Node(kids), d) && FlatAt(Node(kids), d, s, v)
    ensures FlatAt(Node(Exec(kids, d, steps)), d, s, v)
    decreases steps, 0
  {
    if steps != [] {
      var front, st := steps[..|steps| - 1], steps[|steps| - 1];
      var m := Exec(kids, d, front);
      LegalSound(kids, d, front);
      LegalKeeps(kids, d, front, s, v);
      ExecLast(kids, d, steps);
      if m[st.key].Node? {
        assert m[st.key] == kids[st.key];
        KidConsistent(Node(kids), d, st.key);
        CompleteFlat(kids[st.key].kids, d, st.sub);
        WithinHarmless(kids, m, KeysOf(front), d);
        NoMeetingClear(m, Exec(m[st.key].kids, d, st.sub), d, st.key);
        RaisedKeeps(m, Exec(m[st.key].kids, d, st.sub), d, st.key, s, v);
      }
    }
  }

  /** If leaves at one path agree and none meets a submap, every order makes the same map: the joined paths of the
      leaves with their values. */
  lemma {:induction false} CompleteFlat(kids: Kids, d: string, steps: seq<Step>)
    requires Complete(kids, d, steps) && Harmless(Node(kids), d)
    ensures Flat(Exec(kids, d, steps), Node(kids), d)
    decreases steps, 1
  {
    var m := Exec(kids, d, steps);
    CompleteSound(kids, d, steps);
    forall s, v | FlatAt(Node(kids), d, s, v) ensures s in m && m[s] == Leaf(v) {
      LegalKeeps(kids, d, steps, s, v);
      var ks :| LeafAt(Node(m), d, ks, s, v);
      OnlyPath(Node(m), d, ks, s, v);
    }
  }

  // ---- Some order loses a leaf ----

  /** Two leaves with one joined path and different values: every order leaves at most one of them. */
  lemma ClashLosesOne(t: Value, d: string, steps: seq<Step>, s: string, v: Scalar, w: Scalar)
    requires t.Node? && Complete(t.kids, d, steps) && FlatAt(t, d, s, v) && FlatAt(t, d, s, w) && v != w
    ensures var m := Exec(t.kids, d, steps);
      && !(FlatAt(Node(m), d, s, v) && FlatAt(Node(m), d, s, w)) && !Flat(m, t, d)
  {
    var m := Exec(t.kids, d, steps);
    CompleteSound(t.kids, d, steps);
    if FlatAt(Node(m), d, s, v) && FlatAt(Node(m), d, s, w) {
      var a :| LeafAt(Node(m), d, a, s, v);
      var b :| LeafAt(Node(m), d, b, s, w);
      OnlyPath(Node(m), d, a, s, v);
      OnlyPath(Node(m), d, b, s, w);
    }
  }

  /** Any legal beginning of a range can be brought to its end. */
  lemma {:induction false} Finish(t: Value, d: string, steps: seq<Step>) returns (all: seq<Step>)
    requires t.Node? && Legal(t.kids, d, steps)
    ensures Complete(t.kids, d, all) && |steps| <= |all| && all[..|steps|] == steps
    decreases t, t.kids.Keys - KeysOf(steps)
  {
    var m := Exec(t.kids, d, steps);
    if k :| k in t.kids && k in m && k !in KeysOf(steps) {
      var st := Step(k, []);
      if m[k].Node? {
        LegalSound(t.kids, d, steps);
        var sub := Finish(t.kids[k], d, []);
        st := Step(k, sub);
      }
      var more := steps + [st];
      assert more[..|more| - 1] == steps;
      KeysSnoc(more);
      all := Finish(t, d, more);
      assert all[..|steps|] == all[..|more|][..|steps|];
    } else {
      all := steps;
    }
  }

  /** A leaf that is gone stays gone. */
  lemma {:induction false} LostForGood(kids: Kids, d: string, steps: seq<Step>, i: nat, s: string, v: Scalar)
    requires Legal(kids, d, steps) && i <= |steps| && !FlatAt(Node(Exec(kids, d, steps[..i])), d, s, v)
    ensures !FlatAt(Node(Exec(kids, d, steps)), d, s, v)
    decreases |steps|
  {
    if i == |steps| {
      assert steps[..i] == steps;
    } else {
      var front, st := steps[..|steps| - 1], steps[|steps| - 1];
      assert front[..i] == steps[..i];
      LostForGood(kids, d, front, i, s, v);
      var m := Exec(kids, d, front);
      ExecLast(kids, d, steps);
      if m[st.key].Node? {
        CompleteSound(m[st.key].kids, d, st.sub);
        if FlatAt(Node(Exec(kids, d, steps)), d, s, v) {
          RaisedSound(m, Exec(m[st.key].kids, d, st.sub), d, st.key, s, v);
        }
      }
    }
  }

  /** The range that begins with a given visit of one submap, and what the map is after it. */
  lemma FirstVisit(t: Value, d: string, k: string, sub: seq<Step>) returns (all: seq<Step>)
    requires t.Node? && k in t.kids && t.kids[k].Node? && Complete(t.kids[k].kids, d, sub)
    ensures Complete(t.kids, d, all) && |all| >= 1
    ensures Exec(t.kids, d, all[..1]) == Raised(t.kids, Exec(t.kids[k].kids, d, sub), d, k)
  {
    var first := [Step(k, sub)];
    assert first[..0] == [];
    ExecLast(t.kids, d, first);
    assert Exec(t.kids, d, []) == t.kids;
    assert KeysOf([]) == {};
    assert LegalTurn(t.kids, d, {}, first[0]);
    all := Finish(t, d, first);
  }

  /** After the visit of `k` a leaf is gone if the raised map holds it neither as a moved entry nor where it was. */
  lemma GoneAfter(t: Value, d: string, k: string, r: Kids, ks: Path, s: string, v: Scalar)
    requires t.Node? && OwnKeys(t, d) && k in t.kids && t.kids[k].Node? && Sound(r, t.kids[k], d)
    requires LeafAt(t, d, ks, s, v)
    requires ks[0] == k ==> s !in Raised(t.kids, r, d, k)
    requires ks[0] != k ==> IsLifted(r, k + d, ks[0])
    ensures !FlatAt(Node(Raised(t.kids, r, d, k)), d, s, v)
  {
    var next := Raised(t.kids, r, d, k);
    assert t == Node(t.kids);
    if FlatAt(Node(next), d, s, v) {
      var q :| LeafAt(Node(next), d, q, s, v);
      var from := RaisedFrom(t.kids, r, d, k, q, s, v);
    }
  }

  lemma Missing(t: Value, d: string, all: seq<Step>, s: string, v: Scalar)
    requires t.Node? && Complete(t.kids, d, all) && FlatAt(t, d, s, v)
    requires |all| >= 1 && !FlatAt(Node(Exec(t.kids, d, all[..1])), d, s, v)
    ensures !Flat(Exec(t.kids, d, all), t, d)
  {
    LostForGood(t.kids, d, all, 1, s, v);
    var m := Exec(t.kids, d, all);
    if s in m && m[s] == Leaf(v) { SingleLeaf(m, d, s, v); }
  }

  /** A leaf joins to the key of a submap with leaves: the range that comes to the leaf's submap first loses one. */
  lemma MeetingLoses(t: Value, d: string, j: string, v: Scalar) returns (all: seq<Step>)
    requires t.Node? && OwnKeys(t, d) && MeetingAt(t, d, j, v)
    requires forall k :: k in t.kids ==> NoMeeting(t.kids[k], d)
    ensures Complete(t.kids, d, all) && !Flat(Exec(t.kids, d, all), t, d)
  {
    var ks :| LeafAt(t, d, ks, j, v);
    var k := ks[0];
    assert t == Node(t.kids);
    if t.kids[k].Leaf? { OnlyPath(t, d, ks, j, v); }
    Below(t, d, k, ks, j, v);
    var x := Joined(ks[1..], d);
    var sub := Finish(t.kids[k], d, []);
    KidOwnKeys(t, d, k);
    OwnKeysConsistent(t.kids[k], d);
    CompleteFlat(t.kids[k].kids, d, sub);
    var r := Exec(t.kids[k].kids, d, sub);
    assert FlatAt(t.kids[k], d, x, v);
    all := FirstVisit(t, d, k, sub);
    LiftedIs(r, k + d, x);
    if k == j {
      GoneAfter(t, d, k, r, ks, j, v);
      Missing(t, d, all, j, v);
    } else {
      var lost, w :| lost != [] && At(t.kids[j], lost) == Some(Leaf(w));
      Under(t, d, j, lost);
      var s := Joined([j] + lost, d);
      assert LeafAt(t, d, [j] + lost, s, w);
      GoneAfter(t, d, k, r, [j] + lost, s, w);
      Missing(t, d, all, s, w);
    }
  }

  /** A submap flattened in an order that loses a leaf loses it for the whole. */
  lemma KidLoses(t: Value, d: string, k: string, sub: seq<Step>) returns (all: seq<Step>)
    requires t.Node? && OwnKeys(t, d) && k in t.kids && t.kids[k].Node?
    requires Complete(t.kids[k].kids, d, sub) && !Flat(Exec(t.kids[k].kids, d, sub), t.kids[k], d)
    ensures Complete(t.kids, d, all) && !Flat(Exec(t.kids, d, all), t, d)
  {
    var kid := t.kids[k];
    var r := Exec(kid.kids, d, sub);
    CompleteSound(kid.kids, d, sub);
    var x, v :| FlatAt(kid, d, x, v) && !(x in r && r[x] == Leaf(v));
    KidOwnKeys(t, d, k);
    OwnKeysConsistent(kid, d);
    assert x !in r;
    var ks :| LeafAt(kid, d, ks, x, v);
    Under(t, d, k, ks);
    var s := k + d + x;
    assert LeafAt(t, d, [k] + ks, s, v);
    all := FirstVisit(t, d, k, sub);
    GoneDeep(t, d, k, r, [k] + ks, x, v);
    Missing(t, d, all, s, v);
  }

  lemma GoneDeep(t: Value, d: string, k: string, r: Kids, ks: Path, x: string, v: Scalar)
    requires t.Node? && OwnKeys(t, d) && k in t.kids && t.kids[k].Node? && Sound(r, t.kids[k], d) && x !in r
    requires LeafAt(t, d, ks, k + d + x, v) && ks[0] == k
    ensures !FlatAt(Node(Raised(t.kids, r, d, k)), d, k + d + x, v)
  {
    var next, s := Raised(t.kids, r, d, k), k + d + x;
    assert t == Node(t.kids);
    LiftedIs(r, k + d, x);
    if FlatAt(Node(next), d, s, v) {
      var q :| LeafAt(Node(next), d, q, s, v);
      var from := RaisedFrom(t.kids, r, d, k, q, s, v);
    }
  }

  /** If anywhere in the tree a leaf meets a submap, some order loses a leaf. */
  lemma {:induction false} SomeOrderLoses(t: Value, d: string) returns (all: seq<Step>)
    requires t.Node? && OwnKeys(t, d) && !NoMeeting(t, d)
    ensures Complete(t.kids, d, all) && !Flat(Exec(t.kids, d, all), t, d)
    decreases t
  {
    if k :| k in t.kids && !NoMeeting(t.kids[k], d) {
      KidOwnKeys(t, d, k);
      var sub := SomeOrderLoses(t.kids[k], d);
      all := KidLoses(t, d, k, sub);
    } else {
      var j, v :| MeetingAt(t, d, j, v);
      all := MeetingLoses(t, d, j, v);
    }
  }

  /** For every tree whose leaves have joined paths of their own, and every delimiter: all orders give just those paths
      with their values iff nowhere in the tree a leaf joins to the key of a submap that has a leaf. */
  lemma EveryOrderFlatIff(t: Value, d: string)
    requires t.Node? && OwnKeys(t, d)
    ensures (forall steps :: Complete(t.kids, d, steps) ==> Flat(Exec(t.kids, d, steps), t, d)) <==> NoMeeting(t, d)
  {
    assert t == Node(t.kids);
    if NoMeeting(t, d) {
      OwnKeysConsistent(t, d);
      forall steps | Complete(t.kids, d, steps) ensures Flat(Exec(t.kids, d, steps), t, d) {
        CompleteFlat(t.kids, d, steps);
      }
    } else {
      var all := SomeOrderLoses(t, d);
    }
  }

  // ---- Some order loses nothing ----

  /** What comes out of a submap has a longer key than that: the delimiter is not empty, or no leaf of the submap joins
      to the empty string. */
  ghost predicate Longer(kid: Value, d: string) {
    d != "" || forall v :: !FlatAt(kid, d, "", v)
  }

  /** So everywhere in the tree. */
  ghost predicate Grows(t: Value, d: string)
    decreases t
  {
    t.Node? ==> forall k :: k in t.kids && t.kids[k].Node? ==> Longer(t.kids[k], d) && Grows(t.kids[k], d)
  }

  lemma {:induction false} DelimiterGrows(t: Value, d: string)
    requires d != ""
    ensures Grows(t, d)
    decreases t
  {
    if t.Node? {
      forall k | k in t.kids ensures Grows(t.kids[k], d) { DelimiterGrows(t.kids[k], d); }
    }
  }

  lemma LongestClear(now: Kids, r: Kids, d: string, k: string)
    requires k in now && now[k].Node? && Longer(now[k], d) && Sound(r, now[k], d)
    requires forall j :: j in now && now[j].Node? ==> |j| <= |k|
    ensures Clear(now, r, d, k)
  {
    forall x | x in r ensures d != "" || x != "" { assert FlatAt(now[k], d, x, r[x].v); }
    assert forall j :: IsLifted(r, k + d, j) ==> |j| > |k|;
  }

  lemma LongestKey(ks: set<string>) returns (k: string)
    requires ks != {}
    ensures k in ks && forall j :: j in ks ==> |j| <= |k|
    decreases |ks|
  {
    k :| k in ks;
    if ks != {k} {
      var other := LongestKey(ks - {k});
      if |other| > |k| { k := other; }
    }
  }

  ghost predicate KeepsAll(kids: Kids, m: Kids, d: string) {
    forall s, v :: FlatAt(Node(kids), d, s, v) ==> FlatAt(Node(m), d, s, v)
  }

  /** The next turn of such a range. */
  lemma LongestTurn(kids: Kids, d: string, steps: seq<Step>, st: Step)
    requires Grows(Node(kids), d) && Legal(kids, d, steps) && Consistent(Node(kids), d)
    requires KeepsAll(kids, Exec(kids, d, steps), d)
    requires var m := Exec(kids, d, steps);
      && st.key in m && m[st.key].Node? && (forall j :: j in m && m[j].Node? ==> |j| <= |st.key|)
      && Complete(m[st.key].kids, d, st.sub) && Flat(Exec(m[st.key].kids, d, st.sub), m[st.key], d)
    ensures Legal(kids, d, steps + [st]) && KeepsAll(kids, Exec(kids, d, steps + [st]), d)
    ensures KeysOf(steps + [st]) == KeysOf(steps) + {st.key}
  {
    var m, more := Exec(kids, d, steps), steps + [st];
    assert more[..|more| - 1] == steps;
    LegalSound(kids, d, steps);
    KeysSnoc(more);
    ExecLast(kids, d, more);
    var r := Exec(m[st.key].kids, d, st.sub);
    LongestClear(m, r, d, st.key);
    WithinConsistent(kids, m, d);
    forall s, v | FlatAt(Node(kids), d, s, v) ensures FlatAt(Node(Exec(kids, d, more)), d, s, v) {
      RaisedKeeps(m, r, d, st.key, s, v);
    }
  }

  lemma WithinConsistent(kids: Kids, m: Kids, d: string)
    requires Consistent(Node(kids), d) && Within(m, kids, d)
    ensures Consistent(Node(m), d)
  {
  }

  /** Submaps first, the longest key before the others, until none is left. */
  lemma {:induction false} LongestOn(t: Value, d: string, steps: seq<Step>) returns (all: seq<Step>)
    requires t.Node? && Grows(t, d) && Legal(t.kids, d, steps) && Consistent(t, d)
    requires KeepsAll(t.kids, Exec(t.kids, d, steps), d)
    ensures Legal(t.kids, d, all) && KeepsAll(t.kids, Exec(t.kids, d, all), d)
    ensures forall k :: k in Exec(t.kids, d, all) ==> Exec(t.kids, d, all)[k].Leaf?
    decreases t, t.kids.Keys - KeysOf(steps)
  {
    var m := Exec(t.kids, d, steps);
    var subs := set k | k in m && m[k].Node?;
    if subs == {} {
      all := steps;
      assert forall k :: k in m && m[k].Node? ==> k in subs;
    } else {
      assert t == Node(t.kids);
      LegalSound(t.kids, d, steps);
      var k := LongestKey(subs);
      assert t.kids[k] == m[k];
      KidConsistent(t, d, k);
      var sub := FlatOrder(t.kids[k], d);
      LongestTurn(t.kids, d, steps, Step(k, sub));
      all := LongestOn(t, d, steps + [Step(k, sub)]);
    }
  }

  /** An order that keeps every leaf. */
  lemma {:induction false} FlatOrder(t: Value, d: string) returns (all: seq<Step>)
    requires t.Node? && Grows(t, d) && Consistent(t, d)
    ensures Complete(t.kids, d, all) && Flat(Exec(t.kids, d, all), t, d)
    decreases t
  {
    assert t == Node(t.kids) && Exec(t.kids, d, []) == t.kids;
    var steps := LongestOn(t, d, []);
    all := Finish(t, d, steps);
    LeavesStay(t.kids, d, steps, all);
    CompleteSound(t.kids, d, all);
    var m := Exec(t.kids, d, all);
    forall s, v | FlatAt(t, d, s, v) ensures s in m && m[s] == Leaf(v) {
      var ks :| LeafAt(Node(m), d, ks, s, v);
      OnlyPath(Node(m), d, ks, s, v);
    }
  }

  /** Once there are only leaves, visiting them changes nothing. */
  lemma {:induction false} LeavesStay(kids: Kids, d: string, steps: seq<Step>, all: seq<Step>)
    requires Legal(kids, d, all) && |steps| <= |all| && all[..|steps|] == steps
    requires forall k :: k in Exec(kids, d, steps) ==> Exec(kids, d, steps)[k].Leaf?
    ensures Exec(kids, d, all) == Exec(kids, d, steps)
    decreases |all|
  {
    if |all| == |steps| {
      assert all == steps;
    } else {
      var front := all[..|all| - 1];
      assert front[..|steps|] == steps;
      LeavesStay(kids, d, steps, front);
      ExecLast(kids, d, all);
    }
  }

  ghost predicate LosesNothing(t: Value, d: string, steps: seq<Step>)
    requires t.Node?
  {
    Complete(t.kids, d, steps) && Flat(Exec(t.kids, d, steps), t, d)
  }

  /** Some order loses nothing iff the leaves at each joined path agree. */
  lemma SomeOrderFlatIff(t: Value, d: string)
    requires t.Node? && Grows(t, d)
    ensures (exists steps :: LosesNothing(t, d, steps)) <==> Consistent(t, d)
  {
    if Consistent(t, d) {
      var all := FlatOrder(t, d);
      assert LosesNothing(t, d, all);
    }
    if steps :| LosesNothing(t, d, steps) { ConsistentIfFlat(Exec(t.kids, d, steps), t, d); }
  }

  lemma ConsistentIfFlat(m: Kids, t: Value, d: string)
    requires Flat(m, t, d)
    ensures Consistent(t, d)
  {
  }

  /** Two maps that hold just the leaves of a tree are one. */
  lemma FlatUnique(m: Kids, n: Kids, t: Value, d: string)
    requires Flat(m, t, d) && Flat(n, t, d)
    ensures m == n
  {
    assert forall s :: s in m ==> FlatAt(t, d, s, m[s].v);
    assert forall s :: s in n ==> FlatAt(t, d, s, n[s].v);
    assert m.Keys == n.Keys;
  }

  /** All orders of the range give one result. */
  ghost predicate OneResult(t: Value, d: string)
    requires t.Node?
  {
    forall p, q :: Complete(t.kids, d, p) && Complete(t.kids, d, q) ==> Exec(t.kids, d, p) == Exec(t.kids, d, q)
  }

  /** For every tree whose leaves have joined paths of their own, and every delimiter but the empty one: the result is
      the same in every order iff nowhere in the tree a leaf joins to the key of a submap that has a leaf. With the
      empty delimiter this holds as well unless a leaf of a submap joins to the empty string. */
  lemma OrderIndependentIff(t: Value, d: string)
    requires t.Node? && OwnKeys(t, d)
    ensures d != "" ==> Grows(t, d)
    ensures Grows(t, d) ==> (OneResult(t, d) <==> NoMeeting(t, d))
  {
    assert t == Node(t.kids);
    OwnKeysConsistent(t, d);
    if d != "" { DelimiterGrows(t, d); }
    if NoMeeting(t, d) {
      forall p, q | Complete(t.kids, d, p) && Complete(t.kids, d, q)
        ensures Exec(t.kids, d, p) == Exec(t.kids, d, q)
      {
        CompleteFlat(t.kids, d, p);
        CompleteFlat(t.kids, d, q);
        FlatUnique(Exec(t.kids, d, p), Exec(t.kids, d, q), t, d);
      }
    } else if Grows(t, d) {
      var p := FlatOrder(t, d);
      var q := SomeOrderLoses(t, d);
      assert Exec(t.kids, d, p) != Exec(t.kids, d, q);
    }
  }

  /** The empty delimiter: the leaf of {"a": {"": 1}} joins to "a", the key that is dropped. It meets the submap, and is
      lost in every order, so that there is one result all the same. */
  lemma EmptyDelimiter()
    ensures var t := Node(map["a" := Node(map["" := Leaf(Val(1))])]);
      OwnKeys(t, "") && !NoMeeting(t, "") && OneResult(t, "")
      && forall p :: Complete(t.kids, "", p) ==> Exec(t.kids, "", p) == map[]
  {
    var inner: Kids := map["" := Leaf(Val(1))];
    var kids: Kids := map["a" := Node(inner)];
    var t := Node(kids);
    forall a, b, s, v, w | LeafAt(t, "", a, s, v) && LeafAt(t, "", b, s, w) ensures a == b {
      EmptyPath(a, s, v);
      EmptyPath(b, s, w);
    }
    assert At(Node(inner), [""]) == Some(Leaf(Val(1))) by { assert [""][1..] == []; }
    assert At(t, ["a", ""]) == Some(Leaf(Val(1))) by { assert ["a", ""][1..] == [""]; }
    assert Joined(["a", ""], "") == "a" by { assert ["a", ""][1..] == [""]; }
    assert LeafAt(t, "", ["a", ""], "a", Val(1));
    assert MeetingAt(t, "", "a", Val(1));
    forall p | Complete(kids, "", p) ensures Exec(kids, "", p) == map[] {
      assert p != [] by { assert KeysOf([]) == {} && "a" in kids && Exec(kids, "", []) == kids; }
      EmptyAfter(p);
    }
  }

  lemma EmptyPath(a: Path, s: string, v: Scalar)
    requires LeafAt(Node(map["a" := Node(map["" := Leaf(Val(1))])]), "", a, s, v)
    ensures a == ["a", ""]
  {
    var inner: Kids := map["" := Leaf(Val(1))];
    var t := Node(map["a" := Node(inner)]);
    assert a == [a[0]] + a[1..];
    Below(t, "", "a", a, s, v);
    OnlyPath(Node(inner), "", a[1..], Joined(a[1..], ""), v);
  }

  lemma {:induction false} EmptyAfter(p: seq<Step>)
    requires p != [] && Legal(map["a" := Node(map["" := Leaf(Val(1))])], "", p)
    ensures Exec(map["a" := Node(map["" := Leaf(Val(1))])], "", p) == map[]
    decreases |p|
  {
    var inner: Kids := map["" := Leaf(Val(1))];
    var kids: Kids := map["a" := Node(inner)];
    var front, st := p[..|p| - 1], p[|p| - 1];
    ExecLast(kids, "", p);
    if front != [] {
      EmptyAfter(front);
      assert false;
    } else {
      CompleteSound(inner, "", st.sub);
      var r := Exec(inner, "", st.sub);
      forall s ensures s !in Raised(kids, r, "", "a") {
        UpKeys(kids, r, "a" + "", s);
        if IsLifted(r, "a" + "", s) {
          var x := s[1..];
          var ks :| LeafAt(Node(inner), "", ks, x, r[x].v);
          OnlyPath(Node(inner), "", ks, x, r[x].v);
          LiftedSplit("a", s);
        }
      }
    }
  }

  // ---- An example: {"a": {"b": 1}, "a.b": {"c": 2}} at "." ----

  function Example(): Kids {
    map["a" := Node(map["b" := Leaf(Val(1))]), "a.b" := Node(map["c" := Leaf(Val(2))])]
  }

  lemma RaiseOne(now: Kids, d: string, k: string, x: string, v: Scalar)
    ensures Raised(now, map[x := Leaf(v)], d, k) == now[k + d + x := Leaf(v)] - {k}
  {
    var r: Kids := map[x := Leaf(v)];
    forall s ensures IsLifted(r, k + d, s) <==> s == k + d + x {
      if IsLifted(r, k + d, s) { LiftedSplit(k + d, s); }
      LiftedIs(r, k + d, x);
    }
    forall s ensures s in Up(now, r, k + d) <==> s in now || s == k + d + x {
      UpKeys(now, r, k + d, s);
    }
  }

  /** A range over a map of one leaf: it visits that. */
  lemma OneLeaf(d: string, x: string, v: Scalar)
    ensures Complete(map[x := Leaf(v)], d, [Step(x, [])])
    ensures Exec(map[x := Leaf(v)], d, [Step(x, [])]) == map[x := Leaf(v)]
  {
    var kids: Kids, steps := map[x := Leaf(v)], [Step(x, [])];
    assert steps[..0] == [] && KeysOf([]) == {};
    KeysSnoc(steps);
    ExecLast(kids, d, steps);
  }

  lemma TwoTurns(kids: Kids, d: string, a: Step, b: Step)
    requires LegalTurn(kids, d, {}, a) && LegalTurn(Turn(kids, d, a), d, {a.key}, b)
    ensures Legal(kids, d, [a, b]) && Exec(kids, d, [a, b]) == Turn(Turn(kids, d, a), d, b)
    ensures KeysOf([a, b]) == {a.key, b.key}
  {
    assert [a, b][..1] == [a] && [a][..0] == [] && KeysOf([]) == {};
    KeysSnoc([a]);
    KeysSnoc([a, b]);
    assert Exec(kids, d, [a]) == Turn(Exec(kids, d, []), d, a) == Turn(kids, d, a);
    assert Legal(kids, d, []) && Legal(kids, d, [a]);
  }

  /** A turn at a submap of one leaf. */
  lemma TurnRaises(kids: Kids, d: string, k: string, x: string, v: Scalar)
    requires k in kids && kids[k] == Node(map[x := Leaf(v)])
    ensures var st := Step(k, [Step(x, [])]);
      LegalTurn(kids, d, {}, st) && Turn(kids, d, st) == kids[k + d + x := Leaf(v)] - {k}
  {
    OneLeaf(d, x, v);
    RaiseOne(kids, d, k, x, v);
  }

  lemma FirstThere()
    ensures var first, third := Step("a", [Step("b", [])]), Step("a.b", []);
      Complete(Example(), ".", [first, third]) && Exec(Example(), ".", [first, third]) == map["a.b" := Leaf(Val(1))]
  {
    var first, third := Step("a", [Step("b", [])]), Step("a.b", []);
    TurnRaises(Example(), ".", "a", "b", Val(1));
    assert "a" + "." + "b" == "a.b";
    hide Exec;
    hide Complete;
    hide Raised;
    assert Turn(Example(), ".", first) == map["a.b" := Leaf(Val(1))];
    TwoTurns(Example(), ".", first, third);
    Ends(Example(), ".", [first, third]);
  }

  lemma SecondThere()
    ensures var first, second := Step("a", [Step("b", [])]), Step("a.b", [Step("c", [])]);
      && Complete(Example(), ".", [second, first])
      && Exec(Example(), ".", [second, first]) == map["a.b" := Leaf(Val(1)), "a.b.c" := Leaf(Val(2))]
  {
    var first, second := Step("a", [Step("b", [])]), Step("a.b", [Step("c", [])]);
    TurnRaises(Example(), ".", "a.b", "c", Val(2));
    assert "a" + "." + "b" == "a.b" && "a.b" + "." + "c" == "a.b.c";
    var two: Kids := map["a" := Node(map["b" := Leaf(Val(1))]), "a.b.c" := Leaf(Val(2))];
    assert Turn(Example(), ".", second) == two;
    SecondTurn(two);
    hide Exec;
    hide Complete;
    hide Turn;
    TwoTurns(Example(), ".", second, first);
    Ends(Example(), ".", [second, first]);
  }

  lemma SecondTurn(two: Kids)
    requires two == map["a" := Node(map["b" := Leaf(Val(1))]), "a.b.c" := Leaf(Val(2))]
    ensures var first := Step("a", [Step("b", [])]);
      && LegalTurn(two, ".", {"a.b"}, first)
      && Turn(two, ".", first) == map["a.b" := Leaf(Val(1)), "a.b.c" := Leaf(Val(2))]
  {
    TurnRaises(two, ".", "a", "b", Val(1));
    assert "a" + "." + "b" == "a.b";
  }

  /** If "a" is visited first, its 1 replaces the submap at "a.b" and 2 is lost; the other way round both remain. */
  lemma OrderMatters()
    ensures var first, second := Step("a", [Step("b", [])]), Step("a.b", [Step("c", [])]);
      && Complete(Example(), ".", [first, Step("a.b", [])])
      && Exec(Example(), ".", [first, Step("a.b", [])]) == map["a.b" := Leaf(Val(1))]
      && Complete(Example(), ".", [second, first])
      && Exec(Example(), ".", [second, first]) == map["a.b" := Leaf(Val(1)), "a.b.c" := Leaf(Val(2))]
  {
    hide *;
    FirstThere();
    SecondThere();
  }

  lemma Ends(kids: Kids, d: string, steps: seq<Step>)
    requires Legal(kids, d, steps) && kids.Keys <= KeysOf(steps)
    ensures Complete(kids, d, steps)
  {
  }
}
