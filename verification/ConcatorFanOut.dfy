/** ProcessMsg and the NFork workers behind it: every interleaving of submissions, workers, cleaner visits
    and exits, as a list of actions on the channels and the slot maps of the workers. */
module ConcatorFanOut {
  import opened Options
  import opened Concator

  datatype Net = Net(nfork: nat, lbKey: Bytes, hash: Bytes -> nat, rewriteKey: Option<Bytes>, c: Config)

  /** The load-balancing key is the identifier key of every configured tag. */
  ghost predicate Balanced(n: Net) {
    n.nfork >= 1 && forall tag :: tag in n.c.tags ==> n.c.tags[tag].identifierKey == n.lbKey
  }

  datatype Sys = Sys(chans: seq<seq<Record>>, slots: seq<Slots>, out: seq<Sent>, panicked: bool)

  datatype Action =
    | Submit(r: Record)
    | Work(w: nat, t1: int, t2: int)
    | Tick(w: nat, ident: Bytes, t: int)
    | Drain(w: nat, ident: Bytes)

  function Init(n: Net): Sys {
    Sys(seq(n.nfork, _ => []), seq(n.nfork, _ => map[]), [], false)
  }

  /** The optional rewrite of the tag from a field of the message; without that field it is discarded. */
  function Retag(n: Net, r: Record): Option<Record> {
    match n.rewriteKey
    case None => Some(r)
    case Some(k) =>
      match BytesAt(r.fields, k)
      case None => None
      case Some(tag) => Some(Record(tag, r.fields[n.c.tagKey := Text(tag)]))
  }

  function Home(n: Net, id: Bytes): (w: nat)
    requires n.nfork >= 1
    ensures w < n.nfork
  {
    if n.nfork == 1 then 0 else n.hash(id) % n.nfork
  }

  function Enqueue(s: Sys, w: nat, r: Record): Sys
    requires w < |s.chans|
  {
    s.(chans := s.chans[w := s.chans[w] + [r]])
  }

  function Dispatch(n: Net, s: Sys, r: Record): Sys
    requires n.nfork >= 1 && |s.chans| == n.nfork
  {
    if n.nfork == 1 then Enqueue(s, 0, r)
    else match BytesAt(r.fields, n.lbKey)
      case Some(b) => Enqueue(s, n.hash(b) % n.nfork, r)
      case None => s.(out := s.out + [Sent(None, r)])
  }

  function Apply(s: Sys, w: nat, turn: Turn): Sys
    requires w < |s.slots|
  {
    if turn.Panic? then s.(panicked := true)
    else s.(slots := s.slots[w := turn.slots], out := s.out + turn.sent)
  }

  /** What worker `w` does in this action, if it can. */
  function StepOf(s: Sys, a: Action): Option<Step> {
    match a
    case Submit(_) => None
    case Work(w, t1, t2) => if w < |s.chans| && s.chans[w] != [] then Some(Receive(s.chans[w][0], t1, t2)) else None
    case Tick(_, id, t) => Some(Clean(id, t))
    case Drain(_, id) => Some(Flush(id))
  }

  function SysStep(n: Net, s: Sys, a: Action): (s': Sys)
    requires n.nfork >= 1 && |s.chans| == |s.slots| == n.nfork
    ensures |s'.chans| == |s'.slots| == n.nfork && s.out <= s'.out
  {
    if s.panicked then s
    else if a.Submit? then (match Retag(n, a.r) case None => s case Some(r) => Dispatch(n, s, r))
    else if a.w >= n.nfork || StepOf(s, a) == None then s
    else
      var s0 := if a.Work? then s.(chans := s.chans[a.w := s.chans[a.w][1..]]) else s;
      Apply(s0, a.w, WorkerStep(n.c, s.slots[a.w], StepOf(s, a).value))
  }

  function SysRun(n: Net, acts: seq<Action>): (s: Sys)
    requires n.nfork >= 1
    ensures |s.chans| == |s.slots| == n.nfork
  {
    if acts == [] then Init(n) else SysStep(n, SysRun(n, acts[..|acts| - 1]), acts[|acts| - 1])
  }

  /** The events of container `id` in this action: those of the worker it is hashed to. */
  function EvsAt(n: Net, s: Sys, a: Action, id: Bytes): (evs: seq<Ev>)
    requires n.nfork >= 1
    ensures |evs| <= 1
  {
    if a.Submit? || a.w != Home(n, id) then []
    else match StepOf(s, a) case None => [] case Some(st) => EvsOf(n.c, st, id)
  }

  function OwnEvs(n: Net, acts: seq<Action>, id: Bytes): seq<Ev>
    requires n.nfork >= 1
  {
    if acts == [] then []
    else
      var front, a := acts[..|acts| - 1], acts[|acts| - 1];
      OwnEvs(n, front, id) + EvsAt(n, SysRun(n, front), a, id)
  }

  /** A worker takes the message at the head of its channel, with the two clock readings of its turn; the cleaner and
      the exit visit the slot of a container. */
  lemma EventsAre(n: Net, s: Sys, a: Action, id: Bytes)
    requires n.nfork >= 1
    ensures EvsAt(n, s, a, id) == match a
      case Submit(_) => []
      case Tick(w, i, t) => if w == Home(n, id) && i == id then [Visit(t)] else []
      case Drain(w, i) => if w == Home(n, id) && i == id then [Close] else []
      case Work(w, t1, t2) =>
        if w != Home(n, id) || w >= |s.chans| || s.chans[w] == [] then []
        else match Classify(n.c, s.chans[w][0])
          case Pass(_) => []
          case Frag(i, f) => if i == id then [Arrive(f, t1, t2)] else []
  {
    hide Classify;
  }

  // ---- Routing ----

  function FragsOf(c: Config, r: Record, id: Bytes): seq<Fragment> {
    match Classify(c, r) case Pass(_) => [] case Frag(i, f) => if i == id then [f] else []
  }

  /** A message as it was submitted, seen from container `id`: the fragment that it is of its log, if after the optional
      rewrite of its tag it belongs to that container. */
  function SubmittedBy(n: Net, r: Record, id: Bytes): seq<Fragment> {
    match (if n.rewriteKey == None then Some(r.tag) else BytesAt(r.fields, n.rewriteKey.value))
    case None => []
    case Some(tag) =>
      if tag !in n.c.tags then []
      else
        var fields := if n.rewriteKey == None then r.fields else r.fields[n.c.tagKey := Text(tag)];
        var cfg := n.c.tags[tag];
        match BytesAt(fields, cfg.msgKey)
        case None => []
        case Some(log) =>
          if BytesAt(fields, cfg.identifierKey) != Some(id) then []
          else [Fragment(Record(tag, fields[cfg.msgKey := Raw(log)]), cfg.msgKey, log, cfg.head(log))]
  }

  /** It is what the worker will make of it. */
  lemma SubmittedIs(n: Net, r: Record, id: Bytes)
    ensures SubmittedBy(n, r, id) == if Retag(n, r).Some? then FragsOf(n.c, Retag(n, r).value, id) else []
  {
  }

  /** A container keeps its logs under one key. The slot map is keyed by the container alone, so this
      is what two tags sharing a container have to agree on. */
  ghost predicate OneKey(n: Net, r: Record, keyOf: Bytes -> Bytes) {
    match Classify(n.c, r) case Pass(_) => true case Frag(id, f) => f.key == keyOf(id)
  }

  ghost predicate OneKeyEach(n: Net, acts: seq<Action>, keyOf: Bytes -> Bytes) {
    forall i, id, f :: 0 <= i < |acts| && acts[i].Submit? && f in SubmittedBy(n, acts[i].r, id) ==> f.key == keyOf(id)
  }

  lemma OneKeyOf(n: Net, r: Record, keyOf: Bytes -> Bytes)
    requires forall id, f :: f in SubmittedBy(n, r, id) ==> f.key == keyOf(id)
    ensures Retag(n, r).Some? ==> OneKey(n, Retag(n, r).value, keyOf)
  {
    hide Retag;
    hide SubmittedBy;
    if Retag(n, r).Some? && Classify(n.c, Retag(n, r).value).Frag? {
      var id := Classify(n.c, Retag(n, r).value).ident;
      SubmittedIs(n, r, id);
      assert SubmittedBy(n, r, id)[0] in SubmittedBy(n, r, id);
    }
  }

  /** A queued message belongs to the container's own worker and uses the container's key. */
  ghost predicate AtHome(n: Net, w: nat, r: Record, keyOf: Bytes -> Bytes)
    requires n.nfork >= 1
  {
    match Classify(n.c, r) case Pass(_) => true case Frag(id, f) => Home(n, id) == w && f.key == keyOf(id)
  }

  ghost predicate Routed(n: Net, s: Sys, keyOf: Bytes -> Bytes)
    requires n.nfork >= 1 && |s.chans| == |s.slots| == n.nfork
  {
    && (forall w, i :: 0 <= w < n.nfork && 0 <= i < |s.chans[w]| ==> AtHome(n, w, s.chans[w][i], keyOf))
    && (forall w, id :: 0 <= w < n.nfork && id in s.slots[w] ==> Home(n, id) == w)
  }

  lemma SameIdentifier(n: Net, r: Record)
    requires Balanced(n) && Classify(n.c, r).Frag?
    ensures BytesAt(r.fields, n.lbKey) == Some(Classify(n.c, r).ident)
  {
  }

  lemma EnqueueRouted(n: Net, s: Sys, w: nat, r: Record, keyOf: Bytes -> Bytes)
    requires n.nfork >= 1 && |s.chans| == |s.slots| == n.nfork && Routed(n, s, keyOf)
    requires w < n.nfork && AtHome(n, w, r, keyOf)
    ensures Routed(n, Enqueue(s, w, r), keyOf)
  {
  }

  lemma DispatchRouted(n: Net, s: Sys, r: Record, keyOf: Bytes -> Bytes)
    requires Balanced(n) && |s.chans| == |s.slots| == n.nfork && Routed(n, s, keyOf) && OneKey(n, r, keyOf)
    ensures Routed(n, Dispatch(n, s, r), keyOf)
  {
    hide Classify;
    if Classify(n.c, r).Frag? {
      SameIdentifier(n, r);
    }
    if n.nfork == 1 {
      EnqueueRouted(n, s, 0, r, keyOf);
    } else {
      match BytesAt(r.fields, n.lbKey) {
        case Some(b) => EnqueueRouted(n, s, n.hash(b) % n.nfork, r, keyOf);
        case None =>
      }
    }
  }

  /** A worker only ever adds the container of the message it handles. */
  lemma WorkerAdds(c: Config, slots: Slots, st: Step)
    requires WorkerStep(c, slots, st).Turn?
    ensures forall id :: id in WorkerStep(c, slots, st).slots ==>
      id in slots || (st.Receive? && Classify(c, st.rec).Frag? && Classify(c, st.rec).ident == id)
  {
    hide Classify;
  }

  lemma StepRouted(n: Net, s: Sys, a: Action, keyOf: Bytes -> Bytes)
    requires Balanced(n) && |s.chans| == |s.slots| == n.nfork && Routed(n, s, keyOf)
    requires a.Submit? && Retag(n, a.r).Some? ==> OneKey(n, Retag(n, a.r).value, keyOf)
    ensures Routed(n, SysStep(n, s, a), keyOf)
  {
    hide Classify;
    hide Place;
    if s.panicked {
    } else if a.Submit? {
      if Retag(n, a.r).Some? {
        DispatchRouted(n, s, Retag(n, a.r).value, keyOf);
      }
    } else if a.w < n.nfork && StepOf(s, a).Some? {
      var st := StepOf(s, a).value;
      if a.Work? {
        assert AtHome(n, a.w, s.chans[a.w][0], keyOf);
      }
      if WorkerStep(n.c, s.slots[a.w], st).Turn? {
        WorkerAdds(n.c, s.slots[a.w], st);
      }
      hide WorkerStep;
    }
  }

  lemma {:induction false} RunRouted(n: Net, acts: seq<Action>, keyOf: Bytes -> Bytes)
    requires Balanced(n) && OneKeyEach(n, acts, keyOf)
    ensures Routed(n, SysRun(n, acts), keyOf)
  {
    if acts != [] {
      var a := acts[|acts| - 1];
      RunRouted(n, acts[..|acts| - 1], keyOf);
      if a.Submit? { OneKeyOf(n, a.r, keyOf); }
      StepRouted(n, SysRun(n, acts[..|acts| - 1]), a, keyOf);
    }
  }

  // ---- Refinement ----

  ghost predicate InStep(n: Net, s: Sys, sp: Split, id: Bytes, key: Bytes)
    requires n.nfork >= 1 && |s.slots| == n.nfork
  {
    && Holds(s.slots[Home(n, id)], id, key, sp.open)
    && GroupsFit(sp.groups, key)
    && SentOf(s.out, Some(id)) == GlueAll(sp.groups)
  }

  /** A worker that is not the container's home neither holds it nor sends for it. */
  lemma AwayTurn(c: Config, slots: Slots, st: Step, id: Bytes)
    requires id !in slots && WorkerStep(c, slots, st).Turn?
    requires st.Receive? && Classify(c, st.rec).Frag? ==> Classify(c, st.rec).ident != id
    ensures SentOf(WorkerStep(c, slots, st).sent, Some(id)) == []
  {
    hide Classify;
    var turn := WorkerStep(c, slots, st);
    if turn.sent != [] {
      assert turn.sent == [turn.sent[0]];
      SentOther(turn.sent[0], Some(id));
    }
  }

  lemma SubmitInStep(n: Net, s: Sys, a: Action, sp: Split, id: Bytes, key: Bytes)
    requires n.nfork >= 1 && |s.chans| == |s.slots| == n.nfork && InStep(n, s, sp, id, key) && a.Submit?
    ensures InStep(n, SysStep(n, s, a), sp, id, key)
    ensures SysStep(n, s, a).panicked == s.panicked
  {
    hide Retag;
    hide Holds;
    hide GroupsFit;
    hide SentOf;
    match Retag(n, a.r) {
      case None =>
      case Some(r) =>
        assert SentOf(s.out, Some(id)) + [] == SentOf(s.out, Some(id));
        SentOfAppend(s.out, [Sent(None, r)], Some(id));
        SentOther(Sent(None, r), Some(id));
    }
  }

  lemma WorkInStep(n: Net, s: Sys, a: Action, sp: Split, id: Bytes, keyOf: Bytes -> Bytes)
    requires Balanced(n) && |s.chans| == |s.slots| == n.nfork && Routed(n, s, keyOf)
    requires InStep(n, s, sp, id, keyOf(id)) && !a.Submit? && !s.panicked
    requires a.w < n.nfork && StepOf(s, a).Some?
    requires WorkerStep(n.c, s.slots[a.w], StepOf(s, a).value).Turn?
    ensures InStep(n, SysStep(n, s, a), Follow(n.c, sp, EvsAt(n, s, a, id)), id, keyOf(id))
  {
    hide Classify;
    hide WorkerStep;
    hide SplitStep;
    hide EvsOf;
    var st := StepOf(s, a).value;
    var turn := WorkerStep(n.c, s.slots[a.w], st);
    if a.Work? {
      assert AtHome(n, a.w, s.chans[a.w][0], keyOf);
    }
    SentOfAppend(s.out, turn.sent, Some(id));
    if a.w == Home(n, id) {
      StepRefines(n.c, s.slots[a.w], st, id, keyOf(id), sp);
    } else {
      AwayTurn(n.c, s.slots[a.w], st, id);
      assert SentOf(s.out, Some(id)) + [] == SentOf(s.out, Some(id));
    }
  }

  lemma InitInStep(n: Net, id: Bytes, key: Bytes)
    requires n.nfork >= 1
    ensures InStep(n, Init(n), Split(None, []), id, key)
  {
  }

  /** The refinement, and with it the absence of the panic. */
  lemma {:induction false} RunInStep(n: Net, acts: seq<Action>, keyOf: Bytes -> Bytes, id: Bytes)
    requires Balanced(n) && OneKeyEach(n, acts, keyOf)
    ensures !SysRun(n, acts).panicked
    ensures InStep(n, SysRun(n, acts), Splitter(n.c, OwnEvs(n, acts, id)), id, keyOf(id))
    decreases |acts|, 0
  {
    hide InStep;
    hide Holds;
    if acts == [] {
      InitInStep(n, id, keyOf(id));
    } else {
      var front, a := acts[..|acts| - 1], acts[|acts| - 1];
      var s := SysRun(n, front);
      RunInStep(n, front, keyOf, id);
      RunRouted(n, front, keyOf);
      FollowsSplitter(n.c, OwnEvs(n, front, id), EvsAt(n, s, a, id));
      hide WorkerStep;
      hide Classify;
      hide SplitStep;
      if a.Submit? {
        SubmitInStep(n, s, a, Splitter(n.c, OwnEvs(n, front, id)), id, keyOf(id));
      } else if a.w < n.nfork && StepOf(s, a).Some? {
        RunKeepsOn(n, front, a, keyOf);
        WorkInStep(n, s, a, Splitter(n.c, OwnEvs(n, front, id)), id, keyOf);
      } else {
        assert EvsAt(n, s, a, id) == [];
      }
    }
  }

  lemma {:induction false} RunKeepsOn(n: Net, front: seq<Action>, a: Action, keyOf: Bytes -> Bytes)
    requires Balanced(n) && OneKeyEach(n, front, keyOf) && !a.Submit?
    requires a.w < n.nfork && StepOf(SysRun(n, front), a).Some?
    ensures WorkerStep(n.c, SysRun(n, front).slots[a.w], StepOf(SysRun(n, front), a).value).Turn?
    decreases |front|, 1
  {
    hide WorkerStep;
    hide Classify;
    hide Splitter;
    var s := SysRun(n, front);
    var st := StepOf(s, a).value;
    if a.Work? && Classify(n.c, st.rec).Frag? {
      var j := Classify(n.c, st.rec).ident;
      RunInStep(n, front, keyOf, j);
      RunRouted(n, front, keyOf);
      assert AtHome(n, a.w, s.chans[a.w][0], keyOf);
      NoPanic(n.c, s.slots[a.w], st, j, keyOf(j), Splitter(n.c, OwnEvs(n, front, j)));
    } else {
      OthersNeverPanic(n.c, s.slots[a.w], st);
    }
  }

  /** The main result. When the load-balancing key is the identifier key and a container keeps its logs under
      one key, then for every interleaving the records sent for a container are exactly those its own
      sequential splitter makes of its own fragments and clock readings, and no worker panics. */
  lemma FanOutRefinesSplitter(n: Net, acts: seq<Action>, keyOf: Bytes -> Bytes, id: Bytes)
    requires Balanced(n) && OneKeyEach(n, acts, keyOf)
    ensures !SysRun(n, acts).panicked
    ensures var groups := Splitter(n.c, OwnEvs(n, acts, id)).groups;
      (forall i :: 0 <= i < |groups| ==> groups[i] != [])
      && SentOf(SysRun(n, acts).out, Some(id)) == GlueAll(groups)
  {
    RunInStep(n, acts, keyOf, id);
  }

  // ---- Order and bytes ----

  function FragsIn(c: Config, rs: seq<Record>, id: Bytes): seq<Fragment> {
    if rs == [] then [] else FragsIn(c, rs[..|rs| - 1], id) + FragsOf(c, rs[|rs| - 1], id)
  }

  function Submitted(n: Net, acts: seq<Action>, id: Bytes): seq<Fragment> {
    if acts == [] then []
    else
      var a := acts[|acts| - 1];
      Submitted(n, acts[..|acts| - 1], id)
      + if a.Submit? then SubmittedBy(n, a.r, id) else []
  }

  lemma {:induction false} FragsInCons(c: Config, r: Record, rs: seq<Record>, id: Bytes)
    ensures FragsIn(c, [r] + rs, id) == FragsOf(c, r, id) + FragsIn(c, rs, id)
  {
    hide FragsOf;
    if rs == [] {
      assert [r] + rs == [r] && [r][..0] == [];
    } else {
      var m := |rs| - 1;
      FragsInCons(c, r, rs[..m], id);
      assert ([r] + rs)[..|rs|] == [r] + rs[..m];
    }
  }

  lemma {:induction false} FragmentsAppend(evs: seq<Ev>, more: seq<Ev>)
    requires |more| <= 1
    ensures Fragments(evs + more) == Fragments(evs) + Fragments(more)
  {
    if more == [] {
      assert evs + more == evs;
    } else {
      assert (evs + more)[..|evs|] == evs;
      assert more[..0] == [];
    }
  }

  lemma SubmitKeepsOrder(n: Net, s: Sys, a: Action, id: Bytes)
    requires Balanced(n) && |s.chans| == |s.slots| == n.nfork && a.Submit? && !s.panicked
    ensures FragsIn(n.c, SysStep(n, s, a).chans[Home(n, id)], id)
      == FragsIn(n.c, s.chans[Home(n, id)], id)
         + SubmittedBy(n, a.r, id)
  {
    hide SubmittedBy;
    hide FragsIn;
    hide Retag;
    hide Dispatch;
    SubmittedIs(n, a.r, id);
    var was := FragsIn(n.c, s.chans[Home(n, id)], id);
    assert was + [] == was;
    if Retag(n, a.r).Some? { DispatchKeepsOrder(n, s, Retag(n, a.r).value, id); }
  }

  lemma DispatchKeepsOrder(n: Net, s: Sys, r: Record, id: Bytes)
    requires Balanced(n) && |s.chans| == |s.slots| == n.nfork
    ensures FragsIn(n.c, Dispatch(n, s, r).chans[Home(n, id)], id)
         == FragsIn(n.c, s.chans[Home(n, id)], id) + FragsOf(n.c, r, id)
  {
    hide Classify;
    hide FragsIn;
    var q := s.chans[Home(n, id)];
    FragsSnoc(n.c, q, r, id);
    assert FragsIn(n.c, q, id) + [] == FragsIn(n.c, q, id);
    if Classify(n.c, r).Frag? { SameIdentifier(n, r); }
  }

  lemma FragsSnoc(c: Config, q: seq<Record>, r: Record, id: Bytes)
    ensures FragsIn(c, q + [r], id) == FragsIn(c, q, id) + FragsOf(c, r, id)
  {
    hide FragsOf;
    assert (q + [r])[..|q|] == q;
  }

  lemma WorkKeepsOrder(n: Net, s: Sys, a: Action, id: Bytes)
    requires n.nfork >= 1 && |s.chans| == |s.slots| == n.nfork && !a.Submit? && !s.panicked
    ensures Fragments(EvsAt(n, s, a, id)) + FragsIn(n.c, SysStep(n, s, a).chans[Home(n, id)], id)
      == FragsIn(n.c, s.chans[Home(n, id)], id)
  {
    hide FragsOf;
    hide WorkerStep;
    hide EvsOf;
    hide Fragments;
    var none: seq<Ev> := [];
    assert Fragments(none) == [] by { NoFragments(); }
    var h := Home(n, id);
    var q := FragsIn(n.c, s.chans[h], id);
    assert [] + q == q;
    if a.w == h && StepOf(s, a).Some? {
      FragmentsOfStep(n.c, StepOf(s, a).value, id);
    }
    if a.Work? && a.w == h && s.chans[h] != [] {
      assert s.chans[h] == [s.chans[h][0]] + s.chans[h][1..];
      FragsInCons(n.c, s.chans[h][0], s.chans[h][1..], id);
    }
  }

  lemma NoFragments()
    ensures Fragments([]) == []
  {
  }

  lemma FragmentsOfStep(c: Config, st: Step, id: Bytes)
    ensures Fragments(EvsOf(c, st, id)) == if st.Receive? then FragsOf(c, st.rec, id) else []
  {
    hide Classify;
    var evs := EvsOf(c, st, id);
    if evs != [] {
      assert evs[..0] == [];
    }
  }

  /** A container's fragments reach its worker in the order they were submitted: what the worker took,
      followed by what waits in its channel, is what was submitted. */
  lemma {:induction false} InOrder(n: Net, acts: seq<Action>, keyOf: Bytes -> Bytes, id: Bytes)
    requires Balanced(n) && OneKeyEach(n, acts, keyOf)
    ensures Fragments(OwnEvs(n, acts, id)) + FragsIn(n.c, SysRun(n, acts).chans[Home(n, id)], id)
      == Submitted(n, acts, id)
  {
    if acts != [] {
      var front, a := acts[..|acts| - 1], acts[|acts| - 1];
      var s := SysRun(n, front);
      var taken := Fragments(OwnEvs(n, front, id));
      var queued := FragsIn(n.c, s.chans[Home(n, id)], id);
      InOrder(n, front, keyOf, id);
      RunInStep(n, front, keyOf, id);
      hide Classify;
      hide SysStep;
      FragmentsAppend(OwnEvs(n, front, id), EvsAt(n, s, a, id));
      if a.Submit? {
        SubmitKeepsOrder(n, s, a, id);
        Shift(taken, queued, SubmittedBy(n, a.r, id));
        assert taken + Fragments([]) == taken;
      } else {
        WorkKeepsOrder(n, s, a, id);
        Shift(taken, Fragments(EvsAt(n, s, a, id)), FragsIn(n.c, SysStep(n, s, a).chans[Home(n, id)], id));
        assert (taken + queued) + [] == taken + queued;
      }
    } else {
      assert SysRun(n, acts).chans[Home(n, id)] == [];
    }
  }

  /** The logs of sent records, one after the other. */
  function LogBytes(rs: seq<Record>, key: Bytes): Bytes {
    if rs == [] then []
    else LogBytes(rs[..|rs| - 1], key) + match BytesAt(rs[|rs| - 1].fields, key) case Some(b) => b case None => []
  }

  function PendingBytes(slots: Slots, id: Bytes, key: Bytes): Bytes {
    if id in slots then match BytesAt(slots[id].rec.fields, key) case Some(b) => b case None => [] else []
  }

  lemma {:induction false} JoinAppend(a: seq<Fragment>, b: seq<Fragment>)
    ensures Join(a + b) == Join(a) + Join(b)
  {
    if b == [] {
      assert a + b == a;
    } else {
      var m := |b| - 1;
      JoinAppend(a, b[..m]);
      assert (a + b)[..|a + b| - 1] == a + b[..m];
    }
  }

  lemma {:induction false} GluedBytes(gs: seq<seq<Fragment>>, key: Bytes)
    requires GroupsFit(gs, key)
    ensures LogBytes(GlueAll(gs), key) == Join(Flatten(gs))
  {
    if gs != [] {
      var m := |gs| - 1;
      assert gs[m] != [] && gs[m][0] in gs[m];
      GluedBytes(gs[..m], key);
      JoinAppend(Flatten(gs[..m]), gs[m]);
      var rs := GlueAll(gs);
      assert rs[..|rs| - 1] == GlueAll(gs[..m]);
    }
  }

  /** Byte conservation, for every container and in every reachable state: the bytes of the records sent for it,
      then those pending in its slot, then those still queued, are the bytes submitted for it, in order. */
  lemma ByteConservation(n: Net, acts: seq<Action>, keyOf: Bytes -> Bytes, id: Bytes)
    requires Balanced(n) && OneKeyEach(n, acts, keyOf)
    ensures var s, h, key := SysRun(n, acts), Home(n, id), keyOf(id);
      LogBytes(SentOf(s.out, Some(id)), key) + PendingBytes(s.slots[h], id, key) + Join(FragsIn(n.c, s.chans[h], id))
      == Join(Submitted(n, acts, id))
  {
    hide SysRun;
    hide Splitter;
    hide Submitted;
    hide OwnEvs;
    hide FragsIn;
    var s, h, key := SysRun(n, acts), Home(n, id), keyOf(id);
    var sp := Splitter(n.c, OwnEvs(n, acts, id));
    RunInStep(n, acts, keyOf, id);
    InOrder(n, acts, keyOf, id);
    SplitterConserves(n.c, OwnEvs(n, acts, id));
    GluedBytes(sp.groups, key);
    JoinAppend(Flatten(sp.groups), OpenFrags(sp));
    JoinAppend(Fragments(OwnEvs(n, acts, id)), FragsIn(n.c, s.chans[h], id));
    if sp.open.Some? {
      assert sp.open.value.frags[0] in sp.open.value.frags;
    }
    assert PendingBytes(s.slots[h], id, key) == Join(OpenFrags(sp));
  }

  /** When the container's worker has flushed the slot on its way out, nothing of the container is pending any more: the
      bytes sent, then those that the worker has left in its channel, are the bytes submitted. A worker that exits
      since its channel was closed has left none, so that all has been sent; one stopped by its context may have. */
  lemma AllSentAfterExit(n: Net, acts: seq<Action>, keyOf: Bytes -> Bytes, id: Bytes)
    requires Balanced(n) && OneKeyEach(n, acts, keyOf)
    ensures var s, key := SysRun(n, acts + [Drain(Home(n, id), id)]), keyOf(id);
            var left := s.chans[Home(n, id)];
      && left == SysRun(n, acts).chans[Home(n, id)]
      && LogBytes(SentOf(s.out, Some(id)), key) + Join(FragsIn(n.c, left, id)) == Join(Submitted(n, acts, id))
      && (left == [] ==> LogBytes(SentOf(s.out, Some(id)), key) == Join(Submitted(n, acts, id)))
  {
    var all := acts + [Drain(Home(n, id), id)];
    assert all[..|acts|] == acts;
    RunInStep(n, acts, keyOf, id);
    ByteConservation(n, all, keyOf, id);
    Drained(n, SysRun(n, acts), id);
    SameSubmitted(n, acts, Drain(Home(n, id), id), id);
    hide SysStep;
    hide SysRun;
    hide Submitted;
    var sent := LogBytes(SentOf(SysRun(n, all).out, Some(id)), keyOf(id));
    assert sent + [] == sent;
  }

  lemma SameSubmitted(n: Net, acts: seq<Action>, a: Action, id: Bytes)
    requires !a.Submit?
    ensures Submitted(n, acts + [a], id) == Submitted(n, acts, id)
  {
    assert (acts + [a])[..|acts|] == acts;
    assert Submitted(n, acts, id) + [] == Submitted(n, acts, id);
  }

  lemma Drained(n: Net, s: Sys, id: Bytes)
    requires n.nfork >= 1 && |s.chans| == |s.slots| == n.nfork && !s.panicked
    ensures SysStep(n, s, Drain(Home(n, id), id)).chans == s.chans
    ensures id !in SysStep(n, s, Drain(Home(n, id), id)).slots[Home(n, id)]
  {
  }
}
