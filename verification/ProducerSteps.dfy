/** Every step of the producer keeps the invariant. */
module ProducerSteps {
  import opened Options
  import opened Producer
  import opened ProducerInvariant

  // ---- A fork at the registries ----

  lemma AcceptNext(c: Config, i: nat, tag: Tag)
    requires i < |c.senders|
    ensures Accept(c, c.senders[..i + 1], tag)
         == Accept(c, c.senders[..i], tag) + if c.supports(c.senders[i], tag) then [c.senders[i]] else []
  {
    assert c.senders[..i + 1][..i] == c.senders[..i];
  }

  lemma LocksKept(c: Config, r: Registry, forks: seq<Pc>, f: nat, tag: Tag)
    requires f < |forks| && Locks(r, forks)
    ensures Locks(NextReg(c, r, f, tag, forks[f]), forks[f := NextPc(c, r, tag, forks[f])])
  {
  }

  lemma PublishedKept(c: Config, r: Registry, f: nat, tag: Tag, pc: Pc)
    requires Published(c, r) && PcOk(c, r, tag, pc)
    ensures Published(c, NextReg(c, r, f, tag, pc))
  {
  }

  lemma SpawnedOnceKept(c: Config, r: Registry, f: nat, tag: Tag, pc: Pc)
    requires SpawnedOnce(r) && PcOk(c, r, tag, pc)
    ensures SpawnedOnce(NextReg(c, r, f, tag, pc))
  {
  }

  lemma PcKept(c: Config, r: Registry, f: nat, tag: Tag, pc: Pc)
    requires Published(c, r) && PcOk(c, r, tag, pc)
    ensures PcOk(c, NextReg(c, r, f, tag, pc), tag, NextPc(c, r, tag, pc))
  {
    match pc
    case Build(o, i, acc) =>
      if i < |c.senders| { AcceptNext(c, i, tag); } else { assert c.senders[..i] == c.senders; }
    case Spawn(o, i, acc) => AcceptNext(c, i, tag);
    case _ =>
  }

  /** The other forks still know what they knew: registries only grow, and only the holder of the lock spawns. */
  lemma OtherPcKept(c: Config, r: Registry, f: nat, tag: Tag, pc: Pc, tag': Tag, pc': Pc)
    requires PcOk(c, r, tag', pc') && !(Locked(pc) && Locked(pc'))
    ensures PcOk(c, NextReg(c, r, f, tag, pc), tag', pc')
  {
  }

  lemma NextObj(c: Config, r: Registry, tag: Tag, pc: Pc)
    ensures ObjOf(NextPc(c, r, tag, pc)) == ObjOf(pc) || ObjOf(NextPc(c, r, tag, pc)) == None
  {
  }

  lemma TagsGrow(c: Config, r: Registry, f: nat, tag: Tag, pc: Pc)
    ensures r.tag2NSender.Keys <= NextReg(c, r, f, tag, pc).tag2NSender.Keys
  {
  }

  lemma RegistriesKept(c: Config, s: State, f: nat, full: bool)
    requires f < |s.forks| && Registries(c, s)
    ensures Registries(c, ForkStep(c, s, f, full))
  {
    hide NextPc;
    hide NextReg;
    hide NextMail;
    hide Enlist;
    hide PcOk;
    hide Published;
    hide SpawnedOnce;
    hide Locks;
    hide Locked;
    var pc, tag, n := s.forks[f], TagOf(s, s.forks[f]), ForkStep(c, s, f, full);
    LocksKept(c, s.reg, s.forks, f, tag);
    PublishedKept(c, s.reg, f, tag, pc);
    SpawnedOnceKept(c, s.reg, f, tag, pc);
    NextObj(c, s.reg, tag, pc);
    PcKept(c, s.reg, f, tag, pc);
    forall g | 0 <= g < |s.forks|
      ensures ObjOf(n.forks[g]).Some? ==> ObjOf(n.forks[g]).value in n.info
      ensures PcOk(c, n.reg, TagOf(n, n.forks[g]), n.forks[g])
    {
      if g != f {
        OneInside(s, f, g);
        OtherPcKept(c, s.reg, f, tag, pc, TagOf(s, s.forks[g]), s.forks[g]);
      } else {
        IdlePcOk(c, n.reg, tag, TagOf(n, n.forks[g]), n.forks[g]);
      }
    }
  }

  lemma OneInside(s: State, f: nat, g: nat)
    requires f < |s.forks| && g < |s.forks| && f != g && Locks(s.reg, s.forks)
    ensures !(Locked(s.forks[f]) && Locked(s.forks[g]))
  {
  }

  lemma IdlePcOk(c: Config, r: Registry, tag: Tag, tag': Tag, pc: Pc)
    requires PcOk(c, r, tag, pc)
    ensures ObjOf(pc) == None ==> PcOk(c, r, tag', pc)
  {
  }

  // ---- A fork at the messages ----

  lemma NextHolding(c: Config, r: Registry, tag: Tag, pc: Pc)
    ensures var pc' := NextPc(c, r, tag, pc); Holding(pc') == Holding(pc) || Holding(pc') == None
  {
  }

  lemma HoldersKept(forks: seq<Pc>, stage: map<Obj, Stage>, f: nat, pc: Pc)
    requires f < |forks| && Holders(forks, stage) && Holding(pc) == Holding(forks[f])
    ensures Holders(forks[f := pc], stage)
  {
  }

  lemma HolderLetsGo(inChan: seq<Obj>, forks: seq<Pc>, stage: map<Obj, Stage>, f: nat, pc: Pc)
    requires f < |forks| && Queue(inChan, stage) && Holders(forks, stage)
    requires Holding(forks[f]).Some? && Holding(pc) == None
    ensures Queue(inChan, stage[Holding(forks[f]).value := Sent])
    ensures Holders(forks[f := pc], stage[Holding(forks[f]).value := Sent])
  {
  }

  /** A fork begins to send only when the count for the tag is published. */
  lemma BeginsRegistered(c: Config, r: Registry, f: nat, tag: Tag, pc: Pc)
    requires Published(c, r) && PcOk(c, r, tag, pc)
    requires Holding(pc).Some? && Holding(NextPc(c, r, tag, pc)) == None
    ensures tag in NextReg(c, r, f, tag, pc).tag2NSender
  {
  }

  lemma MessagesKept(c: Config, s: State, f: nat, full: bool)
    requires f < |s.forks| && Registries(c, s) && Messages(s)
    ensures Messages(ForkStep(c, s, f, full))
  {
    hide NextPc;
    hide NextReg;
    hide NextMail;
    hide Enlist;
    hide PcOk;
    hide Published;
    hide SpawnedOnce;
    hide Locks;
    hide Holding;
    hide Queue;
    hide Holders;
    var pc, tag := s.forks[f], TagOf(s, s.forks[f]);
    NextHolding(c, s.reg, tag, pc);
    TagsGrow(c, s.reg, f, tag, pc);
    if Holding(pc).Some? && Holding(NextPc(c, s.reg, tag, pc)).None? {
      HoldingIsObj(pc);
      BeginsRegistered(c, s.reg, f, tag, pc);
      HolderLetsGo(s.inChan, s.forks, s.stage, f, NextPc(c, s.reg, tag, pc));
    } else {
      HoldersKept(s.forks, s.stage, f, NextPc(c, s.reg, tag, pc));
    }
  }

  lemma HoldingIsObj(pc: Pc)
    ensures Holding(pc).Some? ==> ObjOf(pc) == Holding(pc)
  {
  }

  // ---- A fork at the sends ----

  lemma BeginsWithAll(c: Config, r: Registry, tag: Tag, pc: Pc, t: Token)
    requires Published(c, r) && PcOk(c, r, tag, pc)
    requires Holding(pc).Some? && Holding(NextPc(c, r, tag, pc)) == None
    ensures !Remaining(pc, t)
    ensures Remaining(NextPc(c, r, tag, pc), t) <==> t in TokensOf(Holding(pc).value, Parties(c, tag))
  {
  }

  lemma ForksEnlist(forks: seq<Pc>, m: Mail, f: nat, o: Obj, n: nat, pc: Pc)
    requires f < |forks| && AtForks(forks, m.loc)
    requires forall t :: t in TokensOf(o, n) ==> t !in m.loc
    requires forall t :: !Remaining(forks[f], t) && (Remaining(pc, t) <==> t in TokensOf(o, n))
    ensures AtForks(forks[f := pc], Enlist(m, f, o, n).loc)
  {
    var forks', loc' := forks[f := pc], Enlist(m, f, o, n).loc;
    forall g: nat, t | g < |forks| ensures Remaining(forks'[g], t) <==> IsAt(loc', t, AtFork(g)) {
      assert Remaining(forks[g], t) <==> IsAt(m.loc, t, AtFork(g));
    }
  }

  lemma HoldsEnlist(q: seq<Token>, m: Mail, l: Loc, f: nat, o: Obj, n: nat)
    requires Holds(q, m.loc, l) && !l.AtFork?
    requires forall t :: t in TokensOf(o, n) ==> t !in m.loc
    ensures Holds(q, Enlist(m, f, o, n).loc, l)
  {
    forall t ensures t in q <==> IsAt(Enlist(m, f, o, n).loc, t, l) {
      assert t in q <==> IsAt(m.loc, t, l);
    }
  }

  lemma ChannelsEnlist(m: Mail, f: nat, o: Obj, n: nat)
    requires Channels(m) && forall t :: t in TokensOf(o, n) ==> t !in m.loc
    ensures Channels(Enlist(m, f, o, n))
  {
    hide Holds;
    hide TokensOf;
    forall k ensures Holds(Inbox(m, k), Enlist(m, f, o, n).loc, AtInbox(k)) {
      HoldsEnlist(Inbox(m, k), m, AtInbox(k), f, o, n);
    }
    HoldsEnlist(m.successed, m, AtSuccess, f, o, n);
    HoldsEnlist(m.failed, m, AtFailed, f, o, n);
    assert forall t :: IsReported(m.loc, t) <==> IsReported(Enlist(m, f, o, n).loc, t);
    assert forall t :: IsAt(m.loc, t, AtSuccess) <==> IsAt(Enlist(m, f, o, n).loc, t, AtSuccess);
    assert forall t :: IsAt(m.loc, t, AtFailed) <==> IsAt(Enlist(m, f, o, n).loc, t, AtFailed);
  }

  lemma HoldsOther(q: seq<Token>, loc: map<Token, Loc>, l: Loc, t: Token, to: Loc)
    requires Holds(q, loc, l) && t in loc && loc[t] != l && to != l
    ensures Holds(q, loc[t := to], l)
  {
    forall u ensures u in q <==> IsAt(loc[t := to], u, l) {
      assert u in q <==> IsAt(loc, u, l);
    }
  }

  lemma HoldsAdded(q: seq<Token>, loc: map<Token, Loc>, l: Loc, t: Token)
    requires Holds(q, loc, l) && t in loc && loc[t] != l
    ensures Holds(q + [t], loc[t := l], l)
  {
    assert t in q <==> IsAt(loc, t, l);
    forall u ensures u in q + [t] <==> IsAt(loc[t := l], u, l) {
      assert u in q <==> IsAt(loc, u, l);
    }
  }

  lemma DropElements<T>(q: seq<T>, i: nat)
    requires i < |q| && NoDup(q)
    ensures NoDup(Drop(q, i))
    ensures forall x :: x in Drop(q, i) <==> x in q && x != q[i]
  {
    forall x | x in q && x != q[i] ensures x in Drop(q, i) {
      var k :| 0 <= k < |q| && q[k] == x;
      assert Drop(q, i)[if k < i then k else k - 1] == x;
    }
  }

  lemma HoldsRemoved(q: seq<Token>, loc: map<Token, Loc>, l: Loc, i: nat, to: Loc)
    requires i < |q| && Holds(q, loc, l) && to != l
    ensures IsAt(loc, q[i], l) && Holds(Drop(q, i), loc[q[i] := to], l)
  {
    assert q[i] in q;
    DropElements(q, i);
    forall u ensures u in Drop(q, i) <==> IsAt(loc[q[i] := to], u, l) {
      assert u in q <==> IsAt(loc, u, l);
    }
  }

  lemma OutcomesMoved(loc: map<Token, Loc>, acks: map<Token, bool>, t: Token, to: Loc)
    requires Outcomes(loc, acks) && t in loc && (loc[t].AtFork? || loc[t].AtInbox?) && (to.AtFork? || to.AtInbox?)
    ensures Outcomes(loc[t := to], acks)
  {
    assert IsReported(loc, t) <==> t in acks;
    forall u ensures u in acks <==> IsReported(loc[t := to], u) {
      assert u in acks <==> IsReported(loc, u);
    }
    assert forall u :: IsAt(loc[t := to], u, AtSuccess) ==> IsAt(loc, u, AtSuccess);
    assert forall u :: IsAt(loc[t := to], u, AtFailed) ==> IsAt(loc, u, AtFailed);
  }

  lemma OutcomesReported(loc: map<Token, Loc>, acks: map<Token, bool>, t: Token, ok: bool)
    requires Outcomes(loc, acks) && t in loc
    ensures Outcomes(loc[t := if ok then AtSuccess else AtFailed], acks[t := ok])
  {
    var loc', acks' := loc[t := if ok then AtSuccess else AtFailed], acks[t := ok];
    forall u ensures u in acks' <==> IsReported(loc', u) {
      assert u in acks <==> IsReported(loc, u);
    }
    forall u | IsAt(loc', u, AtSuccess) ensures u in acks' && acks'[u] {
      assert u != t ==> IsAt(loc, u, AtSuccess);
    }
    forall u | IsAt(loc', u, AtFailed) ensures u in acks' && !acks'[u] {
      assert u != t ==> IsAt(loc, u, AtFailed);
    }
  }

  lemma OutcomesTaken(loc: map<Token, Loc>, acks: map<Token, bool>, t: Token)
    requires Outcomes(loc, acks) && IsReported(loc, t)
    ensures Outcomes(loc[t := Collected], acks)
  {
    forall u ensures u in acks <==> IsReported(loc[t := Collected], u) {
      assert u in acks <==> IsReported(loc, u);
    }
    assert forall u :: IsAt(loc[t := Collected], u, AtSuccess) ==> IsAt(loc, u, AtSuccess);
    assert forall u :: IsAt(loc[t := Collected], u, AtFailed) ==> IsAt(loc, u, AtFailed);
  }

  /** A fork answers for a full inbox, or for a tag that no sender supports. */
  lemma ChannelsAcked(m: Mail, t: Token, ok: bool)
    requires Channels(m) && t in m.loc && m.loc[t].AtFork?
    ensures Channels(Acked(m, t, ok))
  {
    hide Holds;
    hide Outcomes;
    var to := if ok then AtSuccess else AtFailed;
    forall k ensures Holds(Inbox(m, k), m.loc[t := to], AtInbox(k)) {
      HoldsOther(Inbox(m, k), m.loc, AtInbox(k), t, to);
    }
    assert forall k :: Inbox(Acked(m, t, ok), k) == Inbox(m, k);
    if ok {
      HoldsAdded(m.successed, m.loc, AtSuccess, t);
      HoldsOther(m.failed, m.loc, AtFailed, t, to);
    } else {
      HoldsAdded(m.failed, m.loc, AtFailed, t);
      HoldsOther(m.successed, m.loc, AtSuccess, t, to);
    }
    OutcomesReported(m.loc, m.acks, t, ok);
  }

  lemma BlockedApart(m: Mail, blocked: set<Token>)
    requires Channels(m)
    ensures Channels(m.(blocked := blocked))
  {
    assert forall k :: Inbox(m.(blocked := blocked), k) == Inbox(m, k);
  }

  lemma ChannelsDelivered(m: Mail, t: Token, k: Sender)
    requires Channels(m) && t in m.loc && m.loc[t].AtFork?
    ensures Channels(Deliver(m, t, k))
  {
    hide Holds;
    hide Outcomes;
    var m' := Deliver(m, t, k);
    forall h ensures Holds(Inbox(m', h), m'.loc, AtInbox(h)) {
      if h == k { HoldsAdded(Inbox(m, k), m.loc, AtInbox(k), t); }
      else { HoldsOther(Inbox(m, h), m.loc, AtInbox(h), t, AtInbox(k)); }
    }
    HoldsOther(m.successed, m.loc, AtSuccess, t, AtInbox(k));
    HoldsOther(m.failed, m.loc, AtFailed, t, AtInbox(k));
    OutcomesMoved(m.loc, m.acks, t, AtInbox(k));
  }

  lemma ChannelsReported(m: Mail, k: Sender, i: nat, ok: bool)
    requires i < |Inbox(m, k)| && Channels(m)
    ensures Inbox(m, k)[i] in m.loc && m.loc[Inbox(m, k)[i]] == AtInbox(k)
    ensures Channels(Reported(m, k, i, ok))
  {
    hide Holds;
    hide Outcomes;
    var t, m', to := Inbox(m, k)[i], Reported(m, k, i, ok), if ok then AtSuccess else AtFailed;
    HoldsRemoved(Inbox(m, k), m.loc, AtInbox(k), i, to);
    forall h ensures Holds(Inbox(m', h), m'.loc, AtInbox(h)) {
      if h != k { HoldsOther(Inbox(m, h), m.loc, AtInbox(h), t, to); }
    }
    if ok {
      HoldsAdded(m.successed, m.loc, AtSuccess, t);
      HoldsOther(m.failed, m.loc, AtFailed, t, to);
    } else {
      HoldsAdded(m.failed, m.loc, AtFailed, t);
      HoldsOther(m.successed, m.loc, AtSuccess, t, to);
    }
    OutcomesReported(m.loc, m.acks, t, ok);
  }

  /** The collector takes the first outcome of a channel. */
  function Taken(m: Mail, ok: bool): Mail
    requires (if ok then m.successed else m.failed) != []
  {
    if ok then m.(successed := m.successed[1..], loc := m.loc[m.successed[0] := Collected])
    else m.(failed := m.failed[1..], loc := m.loc[m.failed[0] := Collected])
  }

  lemma ChannelsTaken(m: Mail, ok: bool)
    requires Channels(m) && (if ok then m.successed else m.failed) != []
    ensures var t := if ok then m.successed[0] else m.failed[0];
            t in m.loc && m.loc[t] == (if ok then AtSuccess else AtFailed) && t in m.acks && m.acks[t] == ok
    ensures Channels(Taken(m, ok))
  {
    var q := if ok then m.successed else m.failed;
    var t, l := q[0], if ok then AtSuccess else AtFailed;
    assert Drop(q, 0) == q[1..];
    HoldsRemoved(q, m.loc, l, 0, Collected);
    ChannelsTakenRest(m, ok, t);
  }

  lemma ChannelsTakenRest(m: Mail, ok: bool, t: Token)
    requires Channels(m) && (if ok then m.successed else m.failed) != []
    requires t == (if ok then m.successed else m.failed)[0]
    requires IsAt(m.loc, t, if ok then AtSuccess else AtFailed)
    requires Holds((if ok then m.successed else m.failed)[1..], m.loc[t := Collected],
                   if ok then AtSuccess else AtFailed)
    ensures Channels(Taken(m, ok))
  {
    hide Holds;
    hide Outcomes;
    forall h ensures Holds(Inbox(m, h), m.loc[t := Collected], AtInbox(h)) {
      HoldsOther(Inbox(m, h), m.loc, AtInbox(h), t, Collected);
    }
    assert forall h :: Inbox(Taken(m, ok), h) == Inbox(m, h);
    if ok { HoldsOther(m.failed, m.loc, AtFailed, t, Collected); }
    else { HoldsOther(m.successed, m.loc, AtSuccess, t, Collected); }
    OutcomesTaken(m.loc, m.acks, t);
  }

  // The forks while sends move.

  lemma ForksSent(forks: seq<Pc>, loc: map<Token, Loc>, f: nat, pc: Pc, t: Token, to: Loc)
    requires f < |forks| && AtForks(forks, loc) && Remaining(forks[f], t) && !to.AtFork?
    requires forall u :: Remaining(pc, u) <==> Remaining(forks[f], u) && u != t
    ensures IsAt(loc, t, AtFork(f)) && AtForks(forks[f := pc], loc[t := to])
  {
    var forks', loc' := forks[f := pc], loc[t := to];
    forall g: nat, u | g < |forks| ensures Remaining(forks'[g], u) <==> IsAt(loc', u, AtFork(g)) {
      assert Remaining(forks[g], u) <==> IsAt(loc, u, AtFork(g));
      assert Remaining(forks[g], t) <==> IsAt(loc, t, AtFork(g));
    }
  }

  lemma ForksStay(forks: seq<Pc>, loc: map<Token, Loc>, f: nat, pc: Pc)
    requires f < |forks| && AtForks(forks, loc) && forall u :: Remaining(pc, u) <==> Remaining(forks[f], u)
    ensures AtForks(forks[f := pc], loc)
  {
    var forks' := forks[f := pc];
    forall g: nat, u | g < |forks| ensures Remaining(forks'[g], u) <==> IsAt(loc, u, AtFork(g)) {
      assert Remaining(forks[g], u) <==> IsAt(loc, u, AtFork(g));
    }
  }

  lemma ForksMoved(forks: seq<Pc>, loc: map<Token, Loc>, t: Token, to: Loc)
    requires AtForks(forks, loc) && t in loc && !loc[t].AtFork? && !to.AtFork?
    ensures AtForks(forks, loc[t := to])
  {
    forall g: nat, u | g < |forks| ensures Remaining(forks[g], u) <==> IsAt(loc[t := to], u, AtFork(g)) {
      assert Remaining(forks[g], u) <==> IsAt(loc, u, AtFork(g));
      assert Remaining(forks[g], t) <==> IsAt(loc, t, AtFork(g));
    }
  }

  // ---- A step of a fork as a whole ----

  /** The send that the next step of a fork makes. */
  function SendOf(pc: Pc): Option<Token> {
    match pc
    case SendUnsupported(o) => Some(Token(o, 0))
    case PutUnsupported(o) => Some(Token(o, 0))
    case Sending(o, acc, j) => if j < |acc| then Some(Token(o, j)) else None
    case _ => None
  }

  lemma SendMade(c: Config, r: Registry, tag: Tag, pc: Pc, u: Token)
    requires SendOf(pc).Some?
    ensures Holding(pc) == None && Remaining(pc, SendOf(pc).value)
    ensures Remaining(NextPc(c, r, tag, pc), u) <==> Remaining(pc, u) && u != SendOf(pc).value
  {
  }

  lemma NothingSent(c: Config, r: Registry, tag: Tag, pc: Pc, u: Token)
    requires SendOf(pc).None? && !(Holding(pc).Some? && Holding(NextPc(c, r, tag, pc)).None?)
    ensures Remaining(NextPc(c, r, tag, pc), u) <==> Remaining(pc, u)
  {
  }

  ghost predicate MovedTo(m: Mail, m': Mail, t: Token, to: Loc) {
    m'.loc == m.loc[t := to] && (m'.acks == m.acks || m'.acks == m.acks[t := true] || m'.acks == m.acks[t := false])
  }

  lemma SendMoves(c: Config, m: Mail, pc: Pc, full: bool) returns (to: Loc)
    requires Channels(m) && SendOf(pc).Some? && SendOf(pc).value in m.loc && m.loc[SendOf(pc).value].AtFork?
    ensures (to.AtInbox? || to == AtSuccess || to == AtFailed)
    ensures MovedTo(m, NextMail(c, m, pc, full), SendOf(pc).value, to)
    ensures Channels(NextMail(c, m, pc, full))
  {
    hide Channels;
    var t := SendOf(pc).value;
    if pc.Sending? && !full {
      ChannelsDelivered(m, t, pc.acc[pc.j]);
      to := AtInbox(pc.acc[pc.j]);
    } else {
      var ok := if pc.Sending? then c.discardWhenBlocked(pc.acc[pc.j]) else true;
      var m' := if pc.Sending? then m.(blocked := m.blocked + {t}) else m;
      BlockedApart(m, m'.blocked);
      ChannelsAcked(m', t, ok);
      to := if ok then AtSuccess else AtFailed;
    }
  }

  /** Counts stand while no outcome is taken. */
  lemma TalliesStand(c: Config, s: State, s': State)
    requires Tallies(c, s) && s'.pending == s.pending
    requires forall o :: o in s.pending && o in s.info ==> o in s'.info && s'.info[o].tag == s.info[o].tag
    requires forall t :: IsAt(s.mail.loc, t, Collected) <==> IsAt(s'.mail.loc, t, Collected)
    requires forall t :: IsAt(s.mail.loc, t, Collected) ==>
               (t in s.mail.acks <==> t in s'.mail.acks) && (t in s.mail.acks ==> s.mail.acks[t] == s'.mail.acks[t])
    ensures Tallies(c, s')
  {
    forall o ensures TallyOk(c, s', o) {
      TallyStands(c, s, s', o);
    }
  }

  lemma TallyStands(c: Config, s: State, s': State, o: Obj)
    requires TallyOk(c, s, o) && (o in s'.pending <==> o in s.pending)
    requires o in s.pending ==> s'.pending[o] == s.pending[o]
    requires o in s.pending && o in s.info ==> o in s'.info && s'.info[o].tag == s.info[o].tag
    requires forall t: Token :: t.obj == o ==> (IsAt(s.mail.loc, t, Collected) <==> IsAt(s'.mail.loc, t, Collected))
    requires forall t: Token :: t.obj == o && IsAt(s.mail.loc, t, Collected) ==>
               (t in s.mail.acks <==> t in s'.mail.acks) && (t in s.mail.acks ==> s.mail.acks[t] == s'.mail.acks[t])
    ensures TallyOk(c, s', o)
  {
    var got, got' := CollectedOf(s.mail.loc, o), CollectedOf(s'.mail.loc, o);
    forall t ensures t in got <==> t in got' {
      assert t.obj == o ==> (IsAt(s.mail.loc, t, Collected) <==> IsAt(s'.mail.loc, t, Collected));
    }
    assert got == got';
    assert forall t :: t in got ==> IsAt(s.mail.loc, t, Collected);
    assert AllTrue(s.mail.acks, got) <==> AllTrue(s'.mail.acks, got');
  }

  lemma MovedStands(c: Config, s: State, s': State, t: Token, to: Loc)
    requires Tallies(c, s) && s'.pending == s.pending && s'.info == s.info
    requires t in s.mail.loc && s.mail.loc[t] != Collected && to != Collected && MovedTo(s.mail, s'.mail, t, to)
    ensures Tallies(c, s')
  {
    hide Tallies;
    assert forall u :: u != t ==>
      (u in s.mail.acks <==> u in s'.mail.acks) && (u in s.mail.acks ==> s.mail.acks[u] == s'.mail.acks[u]);
    TalliesStand(c, s, s');
  }

  lemma BeginningKept(c: Config, s: State, f: nat, full: bool)
    requires f < |s.forks| && Registries(c, s) && Messages(s) && Sends(c, s) && Tallies(c, s)
    requires Holding(s.forks[f]).Some? && Holding(NextPc(c, s.reg, TagOf(s, s.forks[f]), s.forks[f])).None?
    ensures Sends(c, ForkStep(c, s, f, full)) && Tallies(c, ForkStep(c, s, f, full))
  {
    hide NextPc;
    hide NextReg;
    hide NextMail;
    hide AtForks;
    hide Channels;
    hide Holding;
    hide TokensOf;
    hide Tallies;
    hide Queue;
    var pc, tag, n := s.forks[f], TagOf(s, s.forks[f]), ForkStep(c, s, f, full);
    var o, k := Holding(pc).value, Parties(c, tag);
    HoldingIsObj(pc);
    assert s.stage[o] == Held(f);
    TokensAre(o, k);
    forall t ensures t in TokensOf(o, k) ==> t !in s.mail.loc {
      assert t in s.mail.loc <==> Alive(c, s, t);
    }
    forall t
      ensures !Remaining(pc, t)
      ensures Remaining(NextPc(c, s.reg, tag, pc), t) <==> t in TokensOf(o, k)
    {
      BeginsWithAll(c, s.reg, tag, pc, t);
    }
    ForksEnlist(s.forks, s.mail, f, o, k, NextPc(c, s.reg, tag, pc));
    ChannelsEnlist(s.mail, f, o, k);
    assert Sends(c, n) by {
      forall t ensures t in n.mail.loc <==> Alive(c, n, t) {
        assert t in s.mail.loc <==> Alive(c, s, t);
      }
    }
    TalliesStand(c, s, n) by {
      assert forall t :: t in TokensOf(o, k) ==> n.mail.loc[t] == AtFork(f);
    }
  }

  lemma TokensAre(o: Obj, n: nat)
    ensures forall t :: t in TokensOf(o, n) <==> t.obj == o && t.slot < n
  {
    forall t ensures t in TokensOf(o, n) <==> t.obj == o && t.slot < n {
      assert t == Token(t.obj, t.slot);
    }
  }

  lemma SendingKept(c: Config, s: State, f: nat, full: bool)
    requires f < |s.forks| && Sends(c, s) && Tallies(c, s) && SendOf(s.forks[f]).Some?
    ensures Sends(c, ForkStep(c, s, f, full)) && Tallies(c, ForkStep(c, s, f, full))
  {
    hide NextPc;
    hide NextReg;
    hide NextMail;
    hide AtForks;
    hide Channels;
    hide SendOf;
    hide Tallies;
    hide Remaining;
    var pc, tag, n := s.forks[f], TagOf(s, s.forks[f]), ForkStep(c, s, f, full);
    var t := SendOf(pc).value;
    SendMade(c, s.reg, tag, pc, t);
    SentFrom(s.forks, s.mail.loc, f, t);
    var to := SendMoves(c, s.mail, pc, full);
    forall u ensures Remaining(NextPc(c, s.reg, tag, pc), u) <==> Remaining(pc, u) && u != t {
      SendMade(c, s.reg, tag, pc, u);
    }
    ForksSent(s.forks, s.mail.loc, f, NextPc(c, s.reg, tag, pc), t, to);
    assert Enlisted(c, n) by {
      forall u ensures u in n.mail.loc <==> Alive(c, n, u) {
        assert u in s.mail.loc <==> Alive(c, s, u);
      }
    }
    MovedStands(c, s, n, t, to);
  }

  lemma SentFrom(forks: seq<Pc>, loc: map<Token, Loc>, f: nat, t: Token)
    requires f < |forks| && AtForks(forks, loc) && Remaining(forks[f], t)
    ensures t in loc && loc[t] == AtFork(f)
  {
    assert Remaining(forks[f], t) <==> IsAt(loc, t, AtFork(f));
  }

  lemma WalkingKept(c: Config, s: State, f: nat, full: bool)
    requires f < |s.forks| && Sends(c, s) && Tallies(c, s) && SendOf(s.forks[f]).None?
    requires !(Holding(s.forks[f]).Some? && Holding(NextPc(c, s.reg, TagOf(s, s.forks[f]), s.forks[f])).None?)
    ensures Sends(c, ForkStep(c, s, f, full)) && Tallies(c, ForkStep(c, s, f, full))
  {
    hide NextPc;
    hide NextReg;
    hide AtForks;
    hide Channels;
    hide Holding;
    hide Tallies;
    hide Remaining;
    var pc, tag, n := s.forks[f], TagOf(s, s.forks[f]), ForkStep(c, s, f, full);
    assert n.mail == s.mail;
    forall u ensures Remaining(NextPc(c, s.reg, tag, pc), u) <==> Remaining(pc, u) {
      NothingSent(c, s.reg, tag, pc, u);
    }
    ForksStay(s.forks, s.mail.loc, f, NextPc(c, s.reg, tag, pc));
    assert Enlisted(c, n) by {
      forall u ensures u in n.mail.loc <==> Alive(c, n, u) {
        assert u in s.mail.loc <==> Alive(c, s, u);
      }
    }
    TalliesStand(c, s, n);
  }

  lemma UsesStand(s: State, s': State)
    requires UsesOk(s) && s'.info == s.info && s'.finals == s.finals && s'.uses == s.uses
    ensures UsesOk(s')
  {
    forall u: nat | u < |s'.uses| ensures UseOk(s', u, s'.uses[u]) {
      assert UseOk(s, u, s.uses[u]);
    }
  }

  lemma ForkKept(c: Config, s: State, f: nat, full: bool)
    requires f < |s.forks| && Inv(c, s)
    ensures Inv(c, ForkStep(c, s, f, full))
  {
    hide ForkStep;
    hide Registries;
    hide Messages;
    hide Sends;
    RegistriesKept(c, s, f, full);
    MessagesKept(c, s, f, full);
    SendsKept(c, s, f, full);
    RestKept(c, s, f, full);
  }

  lemma SendsKept(c: Config, s: State, f: nat, full: bool)
    requires f < |s.forks| && Registries(c, s) && Messages(s) && Sends(c, s) && Tallies(c, s)
    ensures Sends(c, ForkStep(c, s, f, full)) && Tallies(c, ForkStep(c, s, f, full))
  {
    hide *;
    if SendOf(s.forks[f]).Some? { SendingKept(c, s, f, full); }
    else if Holding(s.forks[f]).Some? && Holding(NextPc(c, s.reg, TagOf(s, s.forks[f]), s.forks[f])).None? {
      BeginningKept(c, s, f, full);
    } else { WalkingKept(c, s, f, full); }
  }

  lemma RestKept(c: Config, s: State, f: nat, full: bool)
    requires f < |s.forks| && Verdicts(c, s) && UsesOk(s) && !s.panicked
    ensures var n := ForkStep(c, s, f, full); Verdicts(c, n) && UsesOk(n) && !n.panicked
  {
    hide NextPc;
    hide NextReg;
    hide NextMail;
    hide Enlist;
    hide UsesOk;
    hide FinalOk;
    UsesStand(s, ForkStep(c, s, f, full));
  }
}
