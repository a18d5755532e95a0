/** The producer never gets stuck: whatever has happened, and whatever the senders report from then on, all messages
    inside can still come to their verdict. */
module ProducerProgress {
  import opened Options

  import opened Producer
  import opened ProducerInvariant
  import opened ProducerProof
  import opened ProducerSteps
  import opened ProducerTheorems
  import opened ProducerVerdicts

  // ---- How far a fork is ----

  /** A bound for the steps that a fork has still to make for its message, `n` being the number of senders. */
  function Rank(n: nat, pc: Pc): nat {
    match pc
    case Idle => 0
    case SendUnsupported(_) => 1
    case UnlockIdle => 1
    case PutUnsupported(_) => 2
    case MarkUnsupported(_) => 3
    case Sending(_, acc, j) => if j < |acc| then |acc| - j else 1
    case UnlockSend(_, acc) => |acc| + 2
    case PublishCaches(_, acc) => |acc| + 3
    case PublishCount(_, acc) => |acc| + 4
    case Spawn(_, i, acc) => n + 4 + (if i < n then 2 * (n - i) else 0)
    case Build(_, i, acc) => n + 5 + (if i < n then 2 * (n - i) else 0)
    case Recheck(_) => 3 * n + 6
    case Want(_) => 3 * n + 7
    case Load(_) => 3 * n + 8
    case Check(_) => 3 * n + 9
  }

  function Ranks(n: nat, forks: seq<Pc>): nat {
    if forks == [] then 0 else Ranks(n, forks[..|forks| - 1]) + Rank(n, forks[|forks| - 1])
  }

  lemma {:induction false} RanksChange(n: nat, forks: seq<Pc>, f: nat, pc: Pc)
    requires f < |forks|
    ensures Ranks(n, forks[f := pc]) + Rank(n, forks[f]) == Ranks(n, forks) + Rank(n, pc)
    decreases |forks|
  {
    var front := forks[..|forks| - 1];
    if f < |front| {
      RanksChange(n, front, f, pc);
      assert forks[f := pc][..|forks| - 1] == front[f := pc];
    } else {
      assert forks[f := pc][..|forks| - 1] == front;
    }
  }

  lemma {:induction false} AcceptLength(c: Config, ss: seq<Sender>, tag: Tag)
    ensures |Accept(c, ss, tag)| <= |ss|
    decreases |ss|
  {
    if ss != [] { AcceptLength(c, ss[..|ss| - 1], tag); }
  }

  /** Each step brings a fork nearer to its end, but for one that waits for the lock. */
  lemma RankDown(c: Config, r: Registry, tag: Tag, pc: Pc)
    requires PcOk(c, r, tag, pc) && Published(c, r) && !pc.Idle? && (pc.Want? ==> r.lock == None)
    ensures Rank(|c.senders|, NextPc(c, r, tag, pc)) < Rank(|c.senders|, pc)
  {
    hide Accept;
    hide Parties;
    AcceptLength(c, c.senders, tag);
    match pc
    case Build(o, i, acc) =>
      assert i == |c.senders| ==> c.senders[..i] == c.senders;
    case _ =>
  }

  // ---- What a step leaves to be done ----

  /** The copies that wait at senders. */
  ghost function AtSenders(m: Mail): set<Token> {
    set t | t in m.loc && m.loc[t].AtInbox?
  }

  ghost predicate Less(c: Config, n: State, s: State) {
    var senders := |c.senders|;
    || |n.inChan| < |s.inChan|
    || (|n.inChan| == |s.inChan| &&
        (|| Ranks(senders, n.forks) < Ranks(senders, s.forks)
         || (n.forks == s.forks &&
             (|| |AtSenders(n.mail)| < |AtSenders(s.mail)|
              || (|AtSenders(n.mail)| == |AtSenders(s.mail)|
                  && |n.mail.successed| + |n.mail.failed| < |s.mail.successed| + |s.mail.failed|)))))
  }

  lemma ForkLess(c: Config, s: State, f: nat)
    requires Registries(c, s) && !s.panicked
    requires f < |s.forks| && !s.forks[f].Idle? && (s.forks[f].Want? ==> s.reg.lock == None)
    ensures Less(c, Next(c, s, Fork(f, false)), s)
  {
    hide NextReg;
    hide NextMail;
    hide Enlist;
    hide Parties;
    hide NextPc;
    var pc := s.forks[f];
    assert PcOk(c, s.reg, TagOf(s, pc), pc);
    RankDown(c, s.reg, TagOf(s, pc), pc);
    RanksChange(|c.senders|, s.forks, f, NextPc(c, s.reg, TagOf(s, pc), pc));
  }

  lemma ReportLess(c: Config, s: State, k: Sender, ok: bool)
    requires Channels(s.mail) && !s.panicked && Inbox(s.mail, k) != []
    ensures Less(c, Next(c, s, Report(k, 0, ok)), s)
  {
    hide Outcomes;
    var t, n := Inbox(s.mail, k)[0], Reported(s.mail, k, 0, ok);
    assert Holds(Inbox(s.mail, k), s.mail.loc, AtInbox(k)) && t in Inbox(s.mail, k);
    assert IsAt(s.mail.loc, t, AtInbox(k));
    assert AtSenders(s.mail) == AtSenders(n) + {t};
    assert t !in AtSenders(n);
  }

  lemma TallyLess(s: State, t: Token, ok: bool)
    requires t in s.mail.loc && !s.mail.loc[t].AtInbox?
    ensures var n := Tallied(s, t, ok);
      && n.inChan == s.inChan && n.forks == s.forks && AtSenders(n.mail) <= AtSenders(s.mail)
      && n.mail.successed == s.mail.successed && n.mail.failed == s.mail.failed
  {
    hide Count;
    hide AcksOf;
    hide BlockedOf;
    hide TokensOf;
    hide EndUse;
  }

  lemma CollectLess(c: Config, s: State, ok: bool)
    requires Channels(s.mail) && !s.panicked && (if ok then s.mail.successed else s.mail.failed) != []
    ensures Less(c, Next(c, s, Collect(ok)), s)
  {
    hide Outcomes;
    hide Tallied;
    hide Ranks;
    var t := if ok then s.mail.successed[0] else s.mail.failed[0];
    assert IsAt(s.mail.loc, t, if ok then AtSuccess else AtFailed) by {
      assert t in if ok then s.mail.successed else s.mail.failed;
    }
    var m := if ok then s.mail.(successed := s.mail.successed[1..]) else s.mail.(failed := s.mail.failed[1..]);
    TallyLess(s.(mail := m), t, ok);
    assert AtSenders(m) == AtSenders(s.mail);
    SubsetCount(AtSenders(Collecting(s, ok).mail), AtSenders(s.mail));
  }

  // ---- Nothing left to do ----

  ghost predicate Quiet(s: State) {
    && s.inChan == [] && (forall f :: 0 <= f < |s.forks| ==> s.forks[f] == Idle)
    && (forall k :: Inbox(s.mail, k) == []) && s.mail.successed == [] && s.mail.failed == []
  }

  /** When nothing moves any more, no message is inside: none waits for an outcome that nobody owes. */
  lemma QuietIsEmpty(c: Config, s: State)
    requires Inv(c, s) && Quiet(s)
    ensures s.info == map[]
  {
    hide Inv;
    hide Quiet;
    hide Parties;
    hide ToSend;
    hide InInboxes;
    hide Waiting;
    assert Stages(s) by { StagesOf(c, s); }
    forall o ensures o !in s.info {
      if o in s.info {
        QuietSends(c, s, o, Parties(c, s.info[o].tag));
        SentWaits(c, s, o);
      }
    }
  }

  lemma StagesOf(c: Config, s: State)
    requires Inv(c, s)
    ensures Stages(s)
  {
  }

  lemma QuietSends(c: Config, s: State, o: Obj, n: nat)
    requires Inv(c, s) && Quiet(s) && o in s.info
    ensures s.stage[o] == Sent && ToSend(c, s, o, n) == {} && InInboxes(s, o, n) == {} && Waiting(s, o, n) == {}
  {
    hide Registries;
    hide Ends;
    hide Sends;
    hide TokensOf;
    assert s.stage[o] == Queued ==> o in s.inChan;
    assert forall f :: 0 <= f < |s.forks| ==> Holding(s.forks[f]) == None;
  }

  /** A message that is being sent owes at least one outcome. */
  lemma SentWaits(c: Config, s: State, o: Obj)
    requires Inv(c, s) && o in s.info && s.stage[o] == Sent
    ensures var n := Parties(c, s.info[o].tag);
      ToSend(c, s, o, n) != {} || InInboxes(s, o, n) != {} || Waiting(s, o, n) != {}
  {
    hide Registries;
    hide UsesOk;
    hide Verdicts;
    hide TokensOf;
    hide Sends;
    hide Parties;
    hide ToSend;
    hide InInboxes;
    hide Waiting;
    assert TallyOk(c, s, o);
    ConservedIn(c, s, o);
  }

  // ---- Runs that go on ----

  function RunFrom(c: Config, s: State, acts: seq<Action>): State {
    if acts == [] then s else Next(c, RunFrom(c, s, acts[..|acts| - 1]), acts[|acts| - 1])
  }

  lemma {:induction false} RunOn(c: Config, s: State, a: Action, more: seq<Action>)
    ensures RunFrom(c, s, [a] + more) == RunFrom(c, Next(c, s, a), more)
    decreases |more|
  {
    hide Next;
    if more == [] {
      assert ([a] + more)[..0] == [];
      assert RunFrom(c, s, []) == s;
    } else {
      RunOn(c, s, a, more[..|more| - 1]);
      assert ([a] + more)[..|more|] == [a] + more[..|more| - 1];
    }
  }

  lemma {:induction false} RunContinues(c: Config, nfork: nat, acts: seq<Action>, more: seq<Action>)
    ensures Run(c, nfork, acts + more) == RunFrom(c, Run(c, nfork, acts), more)
    decreases |more|
  {
    hide Next;
    if more == [] {
      assert acts + more == acts;
    } else {
      RunContinues(c, nfork, acts, more[..|more| - 1]);
      assert (acts + more)[..|acts + more| - 1] == acts + more[..|more| - 1];
    }
  }

  // ---- Progress ----

  /** An action that brings in nothing new: forks move, senders report as they are told to, outcomes are taken. */
  predicate Inside(a: Action, answers: Sender -> bool) {
    match a
    case Submit(_, _, _, _) => false
    case Fork(_, full) => !full
    case Report(k, _, ok) => ok == answers(k)
    case _ => true
  }

  lemma AreInside(answers: Sender -> bool)
    ensures forall k :: Inside(Report(k, 0, answers(k)), answers)
    ensures forall f :: Inside(Fork(f, false), answers)
    ensures Inside(Collect(true), answers) && Inside(Collect(false), answers) && Inside(Receive(0), answers)
  {
  }

  lemma PartsOf(c: Config, s: State)
    requires Inv(c, s)
    ensures Registries(c, s) && !s.panicked && Channels(s.mail) && Locks(s.reg, s.forks)
  {
  }

  lemma NotQuiet(s: State)
    requires !Quiet(s)
    ensures (exists k :: Inbox(s.mail, k) != []) || s.mail.successed != [] || s.mail.failed != []
         || (exists f: nat :: f < |s.forks| && s.forks[f] != Idle) || s.inChan != []
  {
  }

  lemma HolderMoves(s: State)
    requires Locks(s.reg, s.forks) && s.reg.lock.Some?
    ensures var f := s.reg.lock.value; f < |s.forks| && !s.forks[f].Idle? && !s.forks[f].Want?
  {
  }

  lemma ReceiveLess(c: Config, s: State)
    requires |s.forks| > 0 && !s.panicked && s.forks[0] == Idle && s.inChan != []
    ensures Less(c, Next(c, s, Receive(0)), s)
  {
  }

  /** In every state there is either something to do that brings the end nearer, or nothing left. */
  lemma SomethingToDo(c: Config, s: State, answers: Sender -> bool) returns (a: Action)
    requires Inv(c, s) && |s.forks| > 0 && !Quiet(s)
    ensures Less(c, Next(c, s, a), s) && Inside(a, answers)
  {
    hide *;
    PartsOf(c, s);
    NotQuiet(s);
    AreInside(answers);
    if k :| Inbox(s.mail, k) != [] {
      a := Report(k, 0, answers(k));
      ReportLess(c, s, k, answers(k));
    } else if s.mail.successed != [] {
      a := Collect(true);
      CollectLess(c, s, true);
    } else if s.mail.failed != [] {
      a := Collect(false);
      CollectLess(c, s, false);
    } else if s.reg.lock.Some? {
      var f := s.reg.lock.value;
      HolderMoves(s);
      a := Fork(f, false);
      ForkLess(c, s, f);
    } else if f: nat :| f < |s.forks| && s.forks[f] != Idle {
      a := Fork(f, false);
      ForkLess(c, s, f);
    } else {
      a := Receive(0);
      ReceiveLess(c, s);
    }
  }

  lemma ForksRemain(c: Config, s: State, a: Action)
    ensures |Next(c, s, a).forks| == |s.forks|
  {
    hide ForkStep;
    hide Tallied;
    match a
    case Fork(f, full) =>
      if f < |s.forks| { assert |ForkStep(c, s, f, full).forks| == |s.forks| by { ForkForks(c, s, f, full); } }
    case Collect(ok) =>
      if ok && s.mail.successed != [] {
        TalliedForks(s.(mail := s.mail.(successed := s.mail.successed[1..])), s.mail.successed[0], true);
      } else if !ok && s.mail.failed != [] {
        TalliedForks(s.(mail := s.mail.(failed := s.mail.failed[1..])), s.mail.failed[0], false);
      }
    case _ =>
  }

  lemma ForkForks(c: Config, s: State, f: nat, full: bool)
    requires f < |s.forks|
    ensures |ForkStep(c, s, f, full).forks| == |s.forks|
  {
    hide NextPc;
    hide NextReg;
    hide NextMail;
    hide Enlist;
  }

  lemma TalliedForks(s: State, t: Token, ok: bool)
    ensures Tallied(s, t, ok).forks == s.forks
  {
    hide Count;
    hide AcksOf;
    hide BlockedOf;
    hide TokensOf;
    hide EndUse;
  }

  lemma {:induction false} Drains(c: Config, s: State, answers: Sender -> bool) returns (more: seq<Action>)
    requires Inv(c, s) && |s.forks| > 0
    ensures Inv(c, RunFrom(c, s, more)) && Quiet(RunFrom(c, s, more))
    ensures forall i :: 0 <= i < |more| ==> Inside(more[i], answers)
    decreases |s.inChan|, Ranks(|c.senders|, s.forks), |AtSenders(s.mail)|, |s.mail.successed| + |s.mail.failed|
  {
    hide Inv;
    hide Quiet;
    hide Next;
    if Quiet(s) {
      more := [];
    } else {
      var a := SomethingToDo(c, s, answers);
      NextKept(c, s, a);
      ForksRemain(c, s, a);
      var rest := Drains(c, Next(c, s, a), answers);
      RunOn(c, s, a, rest);
      more := [a] + rest;
    }
  }

  lemma {:induction false} NothingNew(c: Config, nfork: nat, acts: seq<Action>, more: seq<Action>)
    requires forall i :: 0 <= i < |more| ==> !more[i].Submit?
    ensures Submits(c, nfork, acts + more) == Submits(c, nfork, acts)
    decreases |more|
  {
    hide Run;
    if more == [] {
      assert acts + more == acts;
    } else {
      NothingNew(c, nfork, acts, more[..|more| - 1]);
      assert (acts + more)[..|acts + more| - 1] == acts + more[..|more| - 1];
    }
  }

  lemma {:induction false} ForksOfRun(c: Config, nfork: nat, acts: seq<Action>)
    ensures |Run(c, nfork, acts).forks| == nfork
    decreases |acts|
  {
    hide Next;
    if acts != [] {
      ForksOfRun(c, nfork, acts[..|acts| - 1]);
      ForksRemain(c, Run(c, nfork, acts[..|acts| - 1]), acts[|acts| - 1]);
    }
  }

  lemma UsesEnded(c: Config, s: State)
    requires Inv(c, s) && s.info == map[]
    ensures forall u :: 0 <= u < |s.uses| ==> s.uses[u].ended.Some?
  {
    forall u | 0 <= u < |s.uses| ensures s.uses[u].ended.Some? {
      assert UseOk(s, u, s.uses[u]);
    }
  }

  /** After any run, whatever the senders answer from then on, the run can go on, with nothing new coming in, until
      every message that was ever submitted has its verdict: no run leads to a state in which a message is stuck. */
  lemma EveryMessageCanEnd(c: Config, nfork: nat, acts: seq<Action>, answers: Sender -> bool)
    returns (more: seq<Action>)
    requires nfork > 0
    ensures forall i :: 0 <= i < |more| ==> Inside(more[i], answers)
    ensures var s := Run(c, nfork, acts + more);
      && s.info == map[] && s.inChan == [] && |s.uses| == |Submits(c, nfork, acts)|
      && forall u :: 0 <= u < |s.uses| ==> s.uses[u].ended.Some?
  {
    hide Inv;
    hide Run;
    hide RunFrom;
    hide Submits;
    var s := Run(c, nfork, acts);
    Always(c, nfork, acts);
    ForksOfRun(c, nfork, acts);
    more := Drains(c, s, answers);
    RunContinues(c, nfork, acts, more);
    QuietIsEmpty(c, Run(c, nfork, acts + more));
    UsesEnded(c, Run(c, nfork, acts + more));
    UsesAreSubmits(c, nfork, acts + more);
    NothingNew(c, nfork, acts, more);
  }
}
