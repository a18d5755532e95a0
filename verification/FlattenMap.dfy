/** FlattenMap and GetValFromMap of the library, over maps as objects that refer to each other. */
module FlattenMap {
  import opened Options
  import opened NestedMap
  import opened FlattenOrder

  datatype Entry = Plain(v: Scalar) | Sub(m: GoMap)

  class GoMap {
    var entries: map<string, Entry>
    ghost var Repr: set<GoMap>

    constructor ()
      ensures entries == map[] && Repr == {this}
    {
      entries := map[];
      Repr := {this};
    }
  }

  /** The map object is the top of this tree, and no map object occurs in it twice. */
  ghost predicate Holds(g: GoMap, t: Value)
    reads g, g.Repr
    decreases t, 0
  {
    && t.Node? && g in g.Repr && g.entries.Keys == t.kids.Keys
    && (forall k :: k in g.entries ==> EntryHolds(g, g.entries[k], t.kids[k]))
    && Unshared(g)
  }

  ghost predicate EntryHolds(g: GoMap, e: Entry, t: Value)
    reads g, g.Repr
    decreases t, 1
  {
    match e
    case Plain(v) => t == Leaf(v)
    case Sub(m) => t.Node? && m in g.Repr && m.Repr <= g.Repr - {g} && m in m.Repr && Holds(m, t)
  }

  ghost predicate Unshared(g: GoMap)
    reads g, g.Repr
  {
    && (forall k :: k in g.entries && g.entries[k].Sub? ==> g.entries[k].m in g.Repr)
    && forall j, k :: j in g.entries && k in g.entries && j != k && g.entries[j].Sub? && g.entries[k].Sub? ==>
         g.entries[j].m.Repr !! g.entries[k].m.Repr
  }

  // ---- The map objects and the values they stand for ----

  /** The entries hold the leaves of `m`, and a map object for each submap. */
  ghost predicate Shown(es: map<string, Entry>, m: Kids) {
    && es.Keys == m.Keys
    && forall k :: k in es ==> if es[k].Plain? then m[k] == Leaf(es[k].v) else m[k].Node?
  }

  /** Map objects are where they were at first. */
  ghost predicate Left(es: map<string, Entry>, orig: map<string, Entry>) {
    forall k :: k in es && es[k].Sub? ==> k in orig && es[k] == orig[k]
  }

  ghost predicate AllPlain(es: map<string, Entry>) {
    forall k :: k in es ==> es[k].Plain?
  }

  /** The entries with those of a submap added under prefixed keys. */
  ghost predicate Prefixed(now: map<string, Entry>, was: map<string, Entry>, sub: map<string, Entry>, p: string) {
    && (forall s :: s in now <==> s in was || (HasPrefix(s, p) && s[|p|..] in sub))
    && (forall s :: s in now ==>
          now[s] == if HasPrefix(s, p) && s[|p|..] in sub then sub[s[|p|..]] else was[s])
  }

  lemma RaisedShown(was: map<string, Entry>, now: map<string, Entry>, sub: map<string, Entry>, orig: map<string, Entry>,
                    m: Kids, r: Kids, d: string, k: string)
    requires Shown(was, m) && Left(was, orig) && Shown(sub, r) && AllPlain(sub) && Prefixed(now, was, sub, k + d)
    ensures Shown(now - {k}, Raised(m, r, d, k)) && Left(now - {k}, orig)
  {
    forall s
      ensures s in now <==> s in Up(m, r, k + d)
      ensures s in now ==> if now[s].Plain? then Up(m, r, k + d)[s] == Leaf(now[s].v) else Up(m, r, k + d)[s].Node?
    {
      UpKeys(m, r, k + d, s);
    }
  }

  // ---- The code ----

  /** The inner loop: every entry of the submap under its prefixed key, in any order. */
  method MoveUp(data: GoMap, p: string, sub: GoMap)
    requires data != sub
    modifies data`entries
    ensures Prefixed(data.entries, old(data.entries), sub.entries, p)
  {
    var todo := sub.entries.Keys;
    while todo != {}
      invariant todo <= sub.entries.Keys
      invariant Prefixed(data.entries, old(data.entries), sub.entries - todo, p)
      decreases todo
    {
      var k3 :| k3 in todo;
      OneMore(data.entries, old(data.entries), sub.entries, todo, p, k3);
      data.entries := data.entries[p + k3 := sub.entries[k3]];
      todo := todo - {k3};
    }
    assert sub.entries - {} == sub.entries;
  }

  lemma OneMore(now: map<string, Entry>, was: map<string, Entry>, sub: map<string, Entry>, todo: set<string>,
                p: string, k: string)
    requires k in todo && k in sub && Prefixed(now, was, sub - todo, p)
    ensures Prefixed(now[p + k := sub[k]], was, sub - (todo - {k}), p)
  {
    var next := now[p + k := sub[k]];
    assert HasPrefix(p + k, p) && (p + k)[|p|..] == k;
    forall s ensures HasPrefix(s, p) && s[|p|..] == k ==> s == p + k {
      if HasPrefix(s, p) { assert s == s[..|p|] + s[|p|..]; }
    }
  }

  /** The map objects below each submap: apart from each other and from the map itself. */
  ghost predicate Apart(orig: map<string, Entry>, reprs: map<string, set<GoMap>>, data: GoMap, all: set<GoMap>) {
    && (forall k :: k in reprs <==> k in orig && orig[k].Sub?)
    && (forall k :: k in reprs ==> orig[k].m in reprs[k] && reprs[k] <= all - {data})
    && (forall j, k :: j in reprs && k in reprs && j != k ==> reprs[j] !! reprs[k])
  }

  /** A submap is still the tree it was. */
  ghost predicate Waits(m: GoMap, repr: set<GoMap>, t: Value)
    reads m, repr
  {
    m in repr && m.Repr == repr && Holds(m, t)
  }

  /** All map objects below these keys. */
  ghost function Below(reprs: map<string, set<GoMap>>, ks: set<string>): set<GoMap>
    requires ks <= reprs.Keys
  {
    set k, o | k in ks && o in reprs[k] :: o
  }

  ghost predicate AllWait(orig: map<string, Entry>, reprs: map<string, set<GoMap>>, t: Value, ks: set<string>)
    requires ks <= reprs.Keys <= orig.Keys && t.Node? && orig.Keys == t.kids.Keys
    reads Below(reprs, ks)
  {
    forall k :: k in ks ==> orig[k].Sub? && orig[k].m in reprs[k] && Waits(orig[k].m, reprs[k], t.kids[k])
  }

  lemma AllWaitAtFirst(data: GoMap, t: Value, reprs: map<string, set<GoMap>>)
    requires Holds(data, t)
    requires reprs == map k | k in data.entries && data.entries[k].Sub? :: data.entries[k].m.Repr
    ensures t.Node? && data.entries.Keys == t.kids.Keys && data in data.Repr
    ensures Apart(data.entries, reprs, data, data.Repr)
    ensures reprs.Keys <= data.entries.Keys && AllWait(data.entries, reprs, t, reprs.Keys)
    ensures Shown(data.entries, t.kids)
  {
    assert forall k :: k in data.entries ==> EntryHolds(data, data.entries[k], t.kids[k]);
  }

  lemma ApartAll(orig: map<string, Entry>, reprs: map<string, set<GoMap>>, data: GoMap, all: set<GoMap>, k: string,
                 others: set<string>)
    requires Apart(orig, reprs, data, all) && others <= reprs.Keys - {k}
    ensures data !in Below(reprs, others)
    ensures k in reprs ==> reprs[k] <= all - {data} && reprs[k] !! Below(reprs, others)
    ensures k in reprs <==> k in orig && orig[k].Sub?
  {
  }

  lemma OneLess(orig: map<string, Entry>, reprs: map<string, set<GoMap>>, t: Value, ks: set<string>, k: string)
    requires ks <= reprs.Keys <= orig.Keys && t.Node? && orig.Keys == t.kids.Keys && AllWait(orig, reprs, t, ks)
    ensures AllWait(orig, reprs, t, ks - {k})
    ensures k in ks ==> orig[k].Sub? && Waits(orig[k].m, reprs[k], t.kids[k]) && t.kids[k].Node?
  {
  }

  /** FlattenMap on an unshared tree, whatever its keys and the delimiter. The range may visit keys that it inserted
      itself, or not, and goes in any order; it ends once the keys it began with are visited or gone. `plan` is the
      order it happened to take: no map values are left, and the entries are what the tree becomes in that order. If no
      leaf gets in the way of another these are the joined paths of the leaves with their values. */
  method FlattenMap(data: GoMap, d: string, ghost t: Value) returns (ghost plan: seq<Step>)
    requires Holds(data, t)
    modifies data.Repr
    ensures Complete(t.kids, d, plan)
    ensures AllPlain(data.entries) && Shown(data.entries, Exec(t.kids, d, plan))
    ensures Harmless(t, d) ==> Flat(Values(data.entries), t, d)
    decreases t, 3
  {
    ghost var reprs := map k | k in data.entries && data.entries[k].Sub? :: data.entries[k].m.Repr;
    AllWaitAtFirst(data, t, reprs);
    hide *;
    plan := Range(data, d, t, reprs, data.Repr);
    FlatOutcome(data.entries, t, d, plan);
  }

  lemma FlatOutcome(es: map<string, Entry>, t: Value, d: string, plan: seq<Step>)
    requires t.Node? && Complete(t.kids, d, plan) && AllPlain(es) && Shown(es, Exec(t.kids, d, plan))
    ensures Harmless(t, d) ==> Flat(Values(es), t, d)
  {
    assert t == Node(t.kids) && Values(es) == Exec(t.kids, d, plan);
    if Harmless(t, d) { CompleteFlat(t.kids, d, plan); }
  }

  /** The outer loop, given the map objects below each submap. */
  method Range(data: GoMap, d: string, ghost t: Value, ghost reprs: map<string, set<GoMap>>, ghost all: set<GoMap>)
    returns (ghost plan: seq<Step>)
    requires t.Node? && data.entries.Keys == t.kids.Keys && data in all && Shown(data.entries, t.kids)
    requires Apart(data.entries, reprs, data, all)
    requires reprs.Keys <= data.entries.Keys && AllWait(data.entries, reprs, t, reprs.Keys)
    modifies all
    ensures Complete(t.kids, d, plan)
    ensures AllPlain(data.entries) && Shown(data.entries, Exec(t.kids, d, plan))
    decreases t, 2
  {
    ghost var orig, waiting := data.entries, reprs.Keys;
    var first := data.entries.Keys;
    var visited: set<string> := {};
    plan := [];
    NoSteps(t.kids, d);
    hide Holds;
    hide Apart;
    hide Waits;
    hide AllWait;
    hide Shown;
    hide Legal;
    hide Complete;
    hide Exec;
    hide KeysOf;
    hide Left;
    while true
      invariant waiting <= reprs.Keys && KeysOf(plan) == visited
      invariant forall k :: k in reprs && k !in visited ==> k in waiting
      invariant Legal(t.kids, d, plan) && Shown(data.entries, Exec(t.kids, d, plan)) && Left(data.entries, orig)
      invariant AllWait(orig, reprs, t, waiting)
      decreases first - visited, data.entries.Keys - visited
    {
      var k: string;
      if {
        case exists x :: x in data.entries && x !in visited =>
          k :| k in data.entries && k !in visited;
        case forall x :: x in first && x in data.entries ==> x in visited =>
          break;
      }
      ghost var st := RangeTurn(data, k, d, t, orig, reprs, all, waiting, plan);
      visited, waiting, plan := visited + {k}, waiting - {k}, plan + [st];
    }
    RangeEnds(t, d, plan, data.entries);
  }

  /** A turn of the range leaves the maps below all other keys as they are. */
  method RangeTurn(data: GoMap, k: string, d: string, ghost t: Value, ghost orig: map<string, Entry>,
                   ghost reprs: map<string, set<GoMap>>, ghost all: set<GoMap>, ghost waiting: set<string>,
                   ghost plan: seq<Step>)
    returns (ghost st: Step)
    requires t.Node? && orig.Keys == t.kids.Keys && waiting <= reprs.Keys <= orig.Keys && data in all
    requires Apart(orig, reprs, data, all) && AllWait(orig, reprs, t, waiting)
    requires Legal(t.kids, d, plan) && Shown(data.entries, Exec(t.kids, d, plan)) && Left(data.entries, orig)
    requires k in data.entries && k !in KeysOf(plan) && (k in reprs ==> k in waiting)
    modifies all
    ensures Legal(t.kids, d, plan + [st]) && KeysOf(plan + [st]) == KeysOf(plan) + {k}
    ensures Shown(data.entries, Exec(t.kids, d, plan + [st])) && Left(data.entries, orig)
    ensures AllWait(orig, reprs, t, waiting - {k})
    ensures k !in orig ==> data.entries == old(data.entries)
    decreases t, 1, 1
  {
    OneLess(orig, reprs, t, waiting, k);
    ApartAll(orig, reprs, data, all, k, waiting - {k});
    hide *;
    st := Visit(data, k, d, t, orig, reprs, plan);
    KeysSnoc(plan + [st]);
    assert (plan + [st])[..|plan|] == plan;
  }

  lemma NoSteps(kids: Kids, d: string)
    ensures Legal(kids, d, []) && Exec(kids, d, []) == kids && KeysOf([]) == {}
  {
  }

  lemma RangeEnds(t: Value, d: string, plan: seq<Step>, es: map<string, Entry>)
    requires t.Node? && Legal(t.kids, d, plan) && Shown(es, Exec(t.kids, d, plan))
    requires forall k :: k in t.kids && k in es ==> k in KeysOf(plan)
    ensures Complete(t.kids, d, plan) && AllPlain(es)
  {
    LegalSound(t.kids, d, plan);
  }

  /** The branch for a submap: flatten it, move its entries up, drop it. */
  method FlattenKid(data: GoMap, k: string, v2i: GoMap, d: string, ghost kid: Value, ghost orig: map<string, Entry>,
                    ghost m: Kids)
    returns (ghost sub: seq<Step>)
    requires kid.Node? && Holds(v2i, kid) && data !in v2i.Repr && v2i in v2i.Repr
    requires Shown(data.entries, m) && Left(data.entries, orig)
    modifies data`entries, v2i.Repr
    ensures Complete(kid.kids, d, sub)
    ensures Shown(data.entries, Raised(m, Exec(kid.kids, d, sub), d, k)) && Left(data.entries, orig)
    decreases kid, 4
  {
    hide Holds;
    hide Prefixed;
    hide Shown;
    hide Left;
    hide Complete;
    hide Exec;
    ghost var was := data.entries;
    sub := FlattenMap(v2i, d, kid);
    MoveUp(data, k + d, v2i);
    RaisedShown(was, data.entries, v2i.entries, orig, m, Exec(kid.kids, d, sub), d, k);
    data.entries := data.entries - {k};
  }

  /** One turn of the outer loop. */
  method Visit(data: GoMap, k: string, d: string, ghost t: Value, ghost orig: map<string, Entry>,
               ghost reprs: map<string, set<GoMap>>, ghost plan: seq<Step>)
    returns (ghost st: Step)
    requires t.Node? && orig.Keys == t.kids.Keys && Legal(t.kids, d, plan)
    requires Shown(data.entries, Exec(t.kids, d, plan)) && Left(data.entries, orig)
    requires k in data.entries && k !in KeysOf(plan)
    requires k in orig && orig[k].Sub? ==>
      k in reprs && data !in reprs[k] && t.kids[k].Node? && Waits(orig[k].m, reprs[k], t.kids[k])
    modifies data`entries, if k in reprs then reprs[k] else {}
    ensures st.key == k && Legal(t.kids, d, plan + [st])
    ensures Shown(data.entries, Exec(t.kids, d, plan + [st])) && Left(data.entries, orig)
    ensures k !in orig ==> data.entries == old(data.entries)
    decreases t, 1, 0
  {
    hide Holds;
    ghost var m := Exec(t.kids, d, plan);
    LegalSound(t.kids, d, plan);
    st := Step(k, []);
    var vi := data.entries[k];
    if vi.Sub? {
      ghost var sub := FlattenKid(data, k, vi.m, d, t.kids[k], orig, m);
      st := Step(k, sub);
    }
    OneStep(t, d, plan, st);
  }

  lemma OneStep(t: Value, d: string, plan: seq<Step>, st: Step)
    requires t.Node? && Legal(t.kids, d, plan) && LegalTurn(Exec(t.kids, d, plan), d, KeysOf(plan), st)
    ensures Legal(t.kids, d, plan + [st])
    ensures var m := Exec(t.kids, d, plan);
            Exec(t.kids, d, plan + [st])
            == if m[st.key].Node? then Raised(m, Exec(m[st.key].kids, d, st.sub), d, st.key) else m
  {
    assert (plan + [st])[..|plan|] == plan;
    ExecLast(t.kids, d, plan + [st]);
  }

  /** The flattened map as a map of values. */
  function Values(es: map<string, Entry>): Kids {
    map k | k in es && es[k].Plain? :: Leaf(es[k].v)
  }

  // ---- GetValFromMap ----

  ghost predicate Is(e: Entry, t: Value)
    reads if e.Sub? then {e.m} + e.m.Repr else {}
  {
    match e
    case Plain(v) => t == Leaf(v)
    case Sub(m) => Holds(m, t)
  }

  /** The value at a dotted key; there is nil where there is nothing. */
  function Walk(t: Value, key: string): Value {
    match At(t, Split(key, '.')) case None => Leaf(Nil) case Some(x) => x
  }

  /** Each string is a path of dot-free keys; the walker has what is at the end of it, be it a leaf or a submap, and nil
      if there is nothing. */
  lemma WalkIs(t: Value, ks: Path)
    requires ks != [] && AllFree(ks, '.')
    ensures At(t, ks).Some? ==> Walk(t, Joined(ks, ".")) == At(t, ks).value
    ensures At(t, ks) == None ==> Walk(t, Joined(ks, ".")) == Leaf(Nil)
  {
    JoinThenSplit(ks, '.');
  }

  /** The search for a key among those of a map, in any order. */
  method FindKey(m: GoMap, k: string) returns (v: Option<Entry>)
    ensures v == if k in m.entries then Some(m.entries[k]) else None
  {
    var todo := m.entries.Keys;
    while todo != {}
      invariant todo <= m.entries.Keys && (k in m.entries ==> k in todo)
      decreases todo
    {
      var rk :| rk in todo;
      if k == rk {
        return Some(m.entries[rk]);
      }
      todo := todo - {rk};
    }
    v := None;
  }

  method GetValFromMap(m: Entry, key: string, ghost t: Value) returns (r: Entry)
    requires Is(m, t)
    ensures Is(r, Walk(t, key))
  {
    var ks := Split(key, '.');
    var deep := 0;
    var v, k := m, ks[deep];
    ghost var at := t;
    assert ks[0..] == ks;
    while true
      invariant 0 <= deep < |ks| && k == ks[deep]
      invariant Is(v, at) && At(t, ks) == At(at, ks[deep..])
      decreases |ks| - deep
    {
      if !v.Sub? {
        return Plain(Nil);
      }
      var found := FindKey(v.m, k);
      if found == None {
        return Plain(Nil);
      }
      KidIs(v.m, at, k);
      assert ks[deep..][1..] == ks[deep + 1..];
      deep := deep + 1;
      at, v := at.kids[k], found.value;
      if deep == |ks| {
        return v;
      }
      k := ks[deep];
    }
  }

  lemma KidIs(g: GoMap, t: Value, k: string)
    requires Holds(g, t) && k in g.entries
    ensures t.Node? && k in t.kids && Is(g.entries[k], t.kids[k])
  {
    assert EntryHolds(g, g.entries[k], t.kids[k]);
  }

  // ---- The walker and the flattened map ----

  ghost predicate Agree(t: Value, s: string, n: int) {
    Walk(t, s) == Leaf(Val(n)) <==> FlatAt(t, ".", s, Val(n))
  }

  /** The walker finds nothing that is not in the flattened map. */
  lemma WalkedIsFlat(t: Value, s: string, n: int)
    requires Walk(t, s) == Leaf(Val(n))
    ensures FlatAt(t, ".", s, Val(n))
  {
    SplitThenJoin(s, '.');
    assert LeafAt(t, ".", Split(s, '.'), s, Val(n));
  }

  lemma LeafWalked(t: Value, ks: Path, n: int)
    requires LeafAt(t, ".", ks, Joined(ks, "."), Val(n)) && OwnKeys(t, ".")
    ensures Walk(t, Joined(ks, ".")) == Leaf(Val(n)) <==> AllFree(ks, '.')
  {
    var s := Joined(ks, ".");
    SplitThenJoin(s, '.');
    if AllFree(ks, '.') {
      JoinThenSplit(ks, '.');
    }
    if Walk(t, s) == Leaf(Val(n)) {
      assert LeafAt(t, ".", Split(s, '.'), s, Val(n));
    }
  }

  /** GetValFromMap finds just the leaves of the map flattened at "." iff no key on the way to a leaf has a dot. */
  lemma WalkerAgreesIff(t: Value)
    requires OwnKeys(t, ".")
    ensures (forall s, n :: Agree(t, s, n))
       <==> (forall ks, n :: LeafAt(t, ".", ks, Joined(ks, "."), Val(n)) ==> AllFree(ks, '.'))
  {
    if forall s, n :: Agree(t, s, n) {
      forall ks, n | LeafAt(t, ".", ks, Joined(ks, "."), Val(n)) ensures AllFree(ks, '.') {
        assert FlatAt(t, ".", Joined(ks, "."), Val(n));
        assert Agree(t, Joined(ks, "."), n);
        LeafWalked(t, ks, n);
      }
    }
    if forall ks, n :: LeafAt(t, ".", ks, Joined(ks, "."), Val(n)) ==> AllFree(ks, '.') {
      forall s, n ensures Agree(t, s, n) {
        if Walk(t, s) == Leaf(Val(n)) { WalkedIsFlat(t, s, n); }
        if FlatAt(t, ".", s, Val(n)) {
          var ks :| LeafAt(t, ".", ks, s, Val(n));
          LeafWalked(t, ks, n);
        }
      }
    }
  }

  /** Where no key has a dot, joined paths never clash and the walker agrees with the flattened map at every string. */
  lemma WalkerAgrees(t: Value, s: string, n: int)
    requires KeysFree(t, '.')
    ensures NoClash(t, ".") && (Walk(t, s) == Leaf(Val(n)) <==> FlatAt(t, ".", s, Val(n)))
  {
    KeysFreeNoClash(t, '.');
    assert ['.'] == ".";
    NoClashFits(t, ".");
    if FlatAt(t, ".", s, Val(n)) {
      var ks :| LeafAt(t, ".", ks, s, Val(n));
      PathsFree(t, '.', ks);
      LeafWalked(t, ks, n);
    }
    if Walk(t, s) == Leaf(Val(n)) { WalkedIsFlat(t, s, n); }
  }
}
