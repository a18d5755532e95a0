/** The producer and the journal together: messages that are through go from one to the other over the commit channel,
    and so do those that a tag filter or post filter discards (tagfilters/base.go:47-49, postfilters/base.go). */
module Pipeline {
  import P = Producer
  import PI = ProducerInvariant
  import PP = ProducerProof
  import PR = ProducerReports
  import PT = ProducerTheorems
  import PV = ProducerVerdicts
  import J = JournalMachine
  import JP = JournalProof
  import JC = JournalCommits

  datatype Config = Config(p: P.Config, j: J.Config, nfork: nat)

  /** `discarded` is bookkeeping: what filters have discarded on purpose. */
  datatype State = State(p: P.State, j: J.State, discarded: multiset<J.Commit>)

  datatype Action =
    | Produce(pa: P.Action)
    | Discard(m: J.Commit)
    | Keep(ja: J.Action)

  function CommitOf(fin: P.Final): J.Commit {
    J.Commit(fin.info.tag, fin.info.id, fin.info.extIds)
  }

  function Init(c: Config): State {
    State(P.Init(c.nfork), J.Init(), multiset{})
  }

  predicate Room(c: Config, s: State) {
    |s.j.commits.commitChan| < c.j.commitLen
  }

  /** A message whose last outcome makes it a success goes to the commit channel; while that is full the collector
      waits. */
  function Produced(c: Config, s: State, pa: P.Action): State {
    var p := P.Next(c.p, s.p, pa);
    if |p.finals| <= |s.p.finals| || !p.finals[|p.finals| - 1].committed then s.(p := p)
    else if !Room(c, s) then s
    else s.(p := p, j := s.j.(commits := J.Submitted(s.j.commits, CommitOf(p.finals[|p.finals| - 1]))))
  }

  function Next(c: Config, s: State, a: Action): State {
    match a
    case Produce(pa) => Produced(c, s, pa)
    case Discard(m) =>
      if Room(c, s)
      then s.(j := s.j.(commits := J.Submitted(s.j.commits, m)), discarded := s.discarded + multiset{m}) else s
    case Keep(ja) => if ja.Submit? then s else s.(j := J.Next(c.j, s.j, ja))
  }

  function Run(c: Config, acts: seq<Action>): State {
    if acts == [] then Init(c) else Next(c, Run(c, acts[..|acts| - 1]), acts[|acts| - 1])
  }

  /** The messages that finals commit. */
  function Through(fs: seq<P.Final>): multiset<J.Commit> {
    if fs == [] then multiset{}
    else Through(fs[..|fs| - 1]) + if fs[|fs| - 1].committed then multiset{CommitOf(fs[|fs| - 1])} else multiset{}
  }

  ghost predicate Inv(c: Config, s: State) {
    && PI.Inv(c.p, s.p) && JP.Inv(s.j) && JC.SideInv(s.j.commits) && JC.IdsTrue(s.j)
    && s.j.commits.submitted == Through(s.p.finals) + s.discarded
  }

  lemma SubmitKept(c: Config, s: State, m: J.Commit)
    requires JP.Inv(s.j) && JC.SideInv(s.j.commits) && JC.IdsTrue(s.j) && Room(c, s)
    ensures var j := s.j.(commits := J.Submitted(s.j.commits, m));
            JP.Inv(j) && JC.SideInv(j.commits) && JC.IdsTrue(j)
  {
    hide JP.Inv;
    hide JC.SideInv;
    hide JC.IdsTrue;
    JP.NextKept(c.j, s.j, J.Submit(m));
    JC.NextCounted(c.j, s.j, J.Submit(m));
  }

  lemma ProducedKept(c: Config, s: State, pa: P.Action)
    requires Inv(c, s)
    ensures Inv(c, Produced(c, s, pa))
  {
    hide P.Next;
    hide PI.Inv;
    hide JP.Inv;
    hide JC.SideInv;
    hide JC.IdsTrue;
    PP.NextKept(c.p, s.p, pa);
    PT.VerdictsStand(c.p, s.p, pa);
    var p := P.Next(c.p, s.p, pa);
    if |p.finals| > |s.p.finals| {
      assert p.finals[..|p.finals| - 1] == s.p.finals;
      if p.finals[|p.finals| - 1].committed && Room(c, s) {
        SubmitKept(c, s, CommitOf(p.finals[|p.finals| - 1]));
      }
    } else {
      assert p.finals == s.p.finals;
    }
  }

  lemma KeepSubmits(c: J.Config, j: J.State, ja: J.Action)
    requires !ja.Submit?
    ensures J.Next(c, j, ja).commits.submitted == j.commits.submitted
  {
    hide J.Next;
    if JC.OnlyData(ja) {
      JC.DataOnly(c, j, ja);
    } else {
      KeepCommits(c, j, ja);
    }
  }

  lemma KeepCommits(c: J.Config, j: J.State, ja: J.Action)
    requires ja.Dump? || ja.RunCommit? || ja.WriteIds?
    ensures J.Next(c, j, ja).commits.submitted == j.commits.submitted
  {
    hide J.Create;
    hide J.Dumped;
    hide J.Committing;
    hide J.IdsWritten;
    match ja
    case Dump =>
      if j.dumpChan != [] {
        var e := j.dumpChan[0];
        var j' := J.Create(j, e.tag);
        CreateSubmits(j, e.tag);
        if e.tag in j'.tag2JJInchanMap { JC.DumpedOnly(c, j'.(dumpChan := j.dumpChan[1..]), e); }
      }
    case RunCommit(full) =>
      if j.commits.commitChan != [] {
        var m := j.commits.commitChan[0];
        var j' := J.Create(j, m.tag);
        CreateSubmits(j, m.tag);
        if m.tag in j'.commits.tag2JJCommitChanMap { CommittingSubmits(c, j'.commits, m, full); }
      }
    case WriteIds(tag, oks) =>
      if tag in j.commits.tag2JJCommitChanMap && tag in j.tag2JMap && j.commits.tag2JJCommitChanMap[tag] != [] {
        IdsWrittenSubmits(j, tag, oks);
      }
  }

  lemma CreateSubmits(j: J.State, tag: J.Tag)
    ensures J.Create(j, tag).commits.submitted == j.commits.submitted
  {
  }

  lemma CommittingSubmits(c: J.Config, d: J.CommitSide, m: J.Commit, full: bool)
    requires m.tag in d.tag2JJCommitChanMap
    ensures J.Committing(c, J.Popped(d), m, full).submitted == d.submitted
  {
  }

  lemma IdsWrittenSubmits(j: J.State, tag: J.Tag, oks: seq<bool>)
    requires tag in j.commits.tag2JJCommitChanMap && tag in j.tag2JMap && j.commits.tag2JJCommitChanMap[tag] != []
    ensures J.IdsWritten(j, tag, oks).commits.submitted == j.commits.submitted
  {
  }

  lemma NextKept(c: Config, s: State, a: Action)
    requires Inv(c, s)
    ensures Inv(c, Next(c, s, a))
  {
    hide Produced;
    hide PI.Inv;
    hide JP.Inv;
    hide JC.SideInv;
    hide JC.IdsTrue;
    hide J.Next;
    match a
    case Produce(pa) => ProducedKept(c, s, pa);
    case Discard(m) => if Room(c, s) { SubmitKept(c, s, m); }
    case Keep(ja) =>
      if !ja.Submit? {
        JP.NextKept(c.j, s.j, ja);
        JC.NextCounted(c.j, s.j, ja);
        KeepSubmits(c.j, s.j, ja);
      }
  }

  lemma {:induction false} Always(c: Config, acts: seq<Action>)
    ensures Inv(c, Run(c, acts))
    decreases |acts|
  {
    hide Inv;
    hide Next;
    hide Init;
    if acts == [] {
      InitKept(c);
    } else {
      Always(c, acts[..|acts| - 1]);
      NextKept(c, Run(c, acts[..|acts| - 1]), acts[|acts| - 1]);
    }
  }

  lemma InitKept(c: Config)
    ensures Inv(c, Init(c))
  {
    hide P.Init;
    hide PI.Inv;
    PP.InitInv(c.p, c.nfork);
    InitFinals(c);
    JC.InitCounted();
  }

  lemma InitFinals(c: Config)
    ensures P.Init(c.nfork).finals == []
  {
  }

  // ---- The producer's part ----

  /** The collector waits: its message is through, and the commit channel is full. */
  predicate Refused(c: Config, s: State, pa: P.Action) {
    var p := P.Next(c.p, s.p, pa);
    |p.finals| > |s.p.finals| && p.finals[|p.finals| - 1].committed && |s.j.commits.commitChan| >= c.j.commitLen
  }

  /** The steps that the producer makes in a run of the whole. */
  function ProducerActs(c: Config, acts: seq<Action>): seq<P.Action> {
    if acts == [] then []
    else
      var before, a := acts[..|acts| - 1], acts[|acts| - 1];
      ProducerActs(c, before) + if a.Produce? && !Refused(c, Run(c, before), a.pa) then [a.pa] else []
  }

  lemma RunOne(c: Config, pacts: seq<P.Action>, pa: P.Action)
    ensures P.Run(c.p, c.nfork, pacts + [pa]) == P.Next(c.p, P.Run(c.p, c.nfork, pacts), pa)
  {
    assert (pacts + [pa])[..|pacts|] == pacts;
  }

  lemma StepPart(c: Config, s: State, a: Action)
    ensures Next(c, s, a).p == if a.Produce? && !Refused(c, s, a.pa) then P.Next(c.p, s.p, a.pa) else s.p
  {
    hide P.Next;
    hide J.Next;
    hide J.Submitted;
  }

  /** They make a run of the producer by itself, and it ends where the whole has it. */
  lemma {:induction false} ProducerRuns(c: Config, acts: seq<Action>)
    ensures Run(c, acts).p == P.Run(c.p, c.nfork, ProducerActs(c, acts))
    decreases |acts|
  {
    hide P.Next;
    hide Next;
    hide Refused;
    hide P.Init;
    if acts == [] {
      assert P.Run(c.p, c.nfork, []) == P.Init(c.nfork);
    } else {
      var before, a := acts[..|acts| - 1], acts[|acts| - 1];
      ProducerRuns(c, before);
      StepPart(c, Run(c, before), a);
      assert ProducerActs(c, before) + [] == ProducerActs(c, before);
      if a.Produce? && !Refused(c, Run(c, before), a.pa) { RunOne(c, ProducerActs(c, before), a.pa); }
    }
  }

  /** The steps that the journal makes: its own, and a message handed over for each that is through or discarded. */
  function JournalActs(c: Config, acts: seq<Action>): seq<J.Action> {
    if acts == [] then []
    else
      var before := acts[..|acts| - 1];
      JournalActs(c, before) + JournalPart(c, Run(c, before), acts[|acts| - 1])
  }

  function JournalPart(c: Config, s: State, a: Action): seq<J.Action> {
    match a
    case Produce(pa) =>
      var fs := P.Next(c.p, s.p, pa).finals;
      if |fs| > |s.p.finals| && fs[|fs| - 1].committed
      then [J.Submit(J.Commit(fs[|fs| - 1].info.tag, fs[|fs| - 1].info.id, fs[|fs| - 1].info.extIds))] else []
    case Discard(m) => [J.Submit(m)]
    case Keep(ja) => if ja.Submit? then [] else [ja]
  }

  lemma StepOfJournal(c: Config, s: State, a: Action)
    ensures |JournalPart(c, s, a)| <= 1
    ensures Next(c, s, a).j == if JournalPart(c, s, a) == [] then s.j else J.Next(c.j, s.j, JournalPart(c, s, a)[0])
  {
    hide P.Next;
    if a.Keep? { hide J.Next; }
  }

  /** They make a run of the journal by itself. */
  lemma {:induction false} JournalRuns(c: Config, acts: seq<Action>)
    ensures Run(c, acts).j == J.Run(c.j, JournalActs(c, acts))
    decreases |acts|
  {
    hide Next;
    hide J.Next;
    hide JournalPart;
    hide P.Init;
    if acts == [] {
      assert J.Run(c.j, []) == J.Init();
    } else {
      var before, a := acts[..|acts| - 1], acts[|acts| - 1];
      JournalRuns(c, before);
      StepOfJournal(c, Run(c, before), a);
      var jacts, more := JournalActs(c, before), JournalPart(c, Run(c, before), a);
      assert jacts + [] == jacts;
      if more != [] {
        assert more == [more[0]];
        assert (jacts + more)[..|jacts|] == jacts;
      }
    }
  }

  /** A message that is through goes to the end of the commit channel with its tag, its ID and its ExtIds; while that is
      full, nothing moves. Other steps of the producer do not touch the journal. */
  lemma HandsOver(c: Config, s: State, pa: P.Action)
    ensures var p, n := P.Next(c.p, s.p, pa), Next(c, s, Produce(pa)); var d, d' := s.j.commits, n.j.commits;
      n.discarded == s.discarded &&
      if |p.finals| <= |s.p.finals| || !p.finals[|p.finals| - 1].committed then n.p == p && n.j == s.j
      else if |d.commitChan| >= c.j.commitLen then n == s
      else
        var i := p.finals[|p.finals| - 1].info;
        && n.p == p && n.j == s.j.(commits := d')
        && d' == d.(commitChan := d.commitChan + [J.Commit(i.tag, i.id, i.extIds)], submitted := d'.submitted)
        && d'.submitted == d.submitted + multiset{J.Commit(i.tag, i.id, i.extIds)}
  {
    hide P.Next;
  }

  /** So does one that a filter discards, and it waits in the same way. */
  lemma DiscardsTo(c: Config, s: State, m: J.Commit)
    ensures var n := Next(c, s, Discard(m)); var d, d' := s.j.commits, n.j.commits;
      if |d.commitChan| >= c.j.commitLen then n == s
      else
        && n.p == s.p && n.j == s.j.(commits := d') && n.discarded == s.discarded + multiset{m}
        && d' == d.(commitChan := d.commitChan + [m], submitted := d.submitted + multiset{m})
  {
  }

  /** What goes over is one commit for each message that is through. */
  lemma {:induction false} ThroughCounts(fs: seq<P.Final>, m: J.Commit)
    ensures Through(fs)[m]
         == |set i | 0 <= i < |fs| && fs[i].committed
                     && J.Commit(fs[i].info.tag, fs[i].info.id, fs[i].info.extIds) == m|
    decreases |fs|
  {
    if fs != [] {
      var front, last := fs[..|fs| - 1], fs[|fs| - 1];
      ThroughCounts(front, m);
      var a := set i | 0 <= i < |front| && front[i].committed
                       && J.Commit(front[i].info.tag, front[i].info.id, front[i].info.extIds) == m;
      var b := set i | 0 <= i < |fs| && fs[i].committed
                       && J.Commit(fs[i].info.tag, fs[i].info.id, fs[i].info.extIds) == m;
      if last.committed && J.Commit(last.info.tag, last.info.id, last.info.extIds) == m {
        assert b == a + {|front|};
      } else {
        assert b == a;
      }
    }
  }

  // ---- Commit safety ----

  /** A message that came in with this tag, and with `id` as its ID or one of its ExtIds, has been approved by every
      sender of its tag: each took it and reported success, or discards what finds its inbox full. */
  ghost predicate Delivered(c: Config, pacts: seq<P.Action>, u: nat, tag: P.Tag, id: int) {
    var subs := PV.Submits(c.p, c.nfork, pacts);
    && u < |subs| && subs[u].Submit? && subs[u].tag == tag && (id == subs[u].id || id in subs[u].extIds)
    && PV.AllApproved(c.p, PR.History(c.p, c.nfork, pacts), u, tag)
  }

  ghost predicate WasDelivered(c: Config, acts: seq<Action>, tag: P.Tag, id: int) {
    exists u :: Delivered(c, ProducerActs(c, acts), u, tag, id)
  }

  ghost predicate WasDiscarded(s: State, tag: P.Tag, id: int) {
    exists m :: m in s.discarded && m.tag == tag && id in J.IdsOf(m)
  }

  lemma {:induction false} ThroughFrom(fs: seq<P.Final>, m: J.Commit) returns (i: nat)
    requires m in Through(fs)
    ensures i < |fs| && fs[i].committed && CommitOf(fs[i]) == m
    decreases |fs|
  {
    if m in Through(fs[..|fs| - 1]) { i := ThroughFrom(fs[..|fs| - 1], m); } else { i := |fs| - 1; }
  }

  /** After any run of the whole: an id that WriteId is called with, and so every id that counts as committed, is the ID
      or an ExtId of a message that every sender of its tag has approved, by the reports of the run, or of one that a
      filter discarded. And what the journal was asked to commit is exactly the messages that are through and those. */
  lemma CommitSafety(c: Config, acts: seq<Action>, tag: P.Tag, id: int)
    ensures var s := Run(c, acts); var d := s.j.commits;
      && d.submitted == Through(s.p.finals) + s.discarded
      && ((exists i :: 0 <= i < |d.attempts| && d.attempts[i].tag == tag && d.attempts[i].id == id)
          ==> WasDelivered(c, acts, tag, id) || WasDiscarded(s, tag, id))
      && (JC.HasId(s.j, tag, id) ==> WasDelivered(c, acts, tag, id) || WasDiscarded(s, tag, id))
  {
    hide Run;
    hide WasDelivered;
    hide WasDiscarded;
    var s := Run(c, acts);
    Always(c, acts);
    var d := s.j.commits;
    if i :| 0 <= i < |d.attempts| && d.attempts[i].tag == tag && d.attempts[i].id == id {
      AttemptFrom(c, acts, i);
    }
    if JC.HasId(s.j, tag, id) {
      assert J.Attempt(tag, id, true) in d.attempts;
      var i :| 0 <= i < |d.attempts| && d.attempts[i] == J.Attempt(tag, id, true);
      AttemptFrom(c, acts, i);
    }
  }

  lemma AttemptFrom(c: Config, acts: seq<Action>, i: nat)
    requires i < |Run(c, acts).j.commits.attempts|
    ensures var s := Run(c, acts); var a := s.j.commits.attempts[i];
      WasDelivered(c, acts, a.tag, a.id) || WasDiscarded(s, a.tag, a.id)
  {
    hide JP.Inv;
    hide JC.SideInv;
    hide JC.IdsTrue;
    hide PI.Inv;
    hide Run;
    hide ProducerActs;
    hide Delivered;
    Always(c, acts);
    var s := Run(c, acts);
    var d := s.j.commits;
    JC.AttemptAsked(d, i);
    var m :| m in d.submitted && m.tag == d.attempts[i].tag && d.attempts[i].id in J.IdsOf(m);
    if m in Through(s.p.finals) {
      var k := ThroughFrom(s.p.finals, m);
      ProducerRuns(c, acts);
      FinalDelivered(c, ProducerActs(c, acts), k, d.attempts[i].id);
    } else {
      assert m in s.discarded;
    }
  }

  lemma FinalDelivered(c: Config, pacts: seq<P.Action>, k: nat, id: int)
    requires var fs := P.Run(c.p, c.nfork, pacts).finals;
      k < |fs| && fs[k].committed && id in J.IdsOf(CommitOf(fs[k]))
    ensures var i := P.Run(c.p, c.nfork, pacts).finals[k].info; Delivered(c, pacts, i.use, i.tag, id)
  {
    hide P.Run;
    hide PR.History;
    hide PV.Submits;
    hide PI.Registries;
    hide PI.Messages;
    hide PI.Sends;
    hide PI.Tallies;
    hide PI.Verdicts;
    hide PV.Approved;
    hide P.Accept;
    PV.VerdictsFromReports(c.p, c.nfork, pacts, k);
    PV.UsesAreSubmits(c.p, c.nfork, pacts);
    PP.Always(c.p, c.nfork, pacts);
  }

  // ---- Delivery ----

  /** What the documentation promises of the whole (docs/README_cn.md:174-175), as far as the code keeps it: after any
      run, every message that the journal was given is in the log or on its way into it; or it has been delivered, or
      discarded by a filter; or it is one of those let go: both attempts to write it failed, or the dumper found no
      room. */
  lemma DeliveredOrKept(c: Config, acts: seq<Action>, e: J.Entry)
    requires e in Run(c, acts).j.arrived
    ensures var s := Run(c, acts);
      || J.Logged(s.j, e) || J.OnItsWay(s.j, e)
      || WasDelivered(c, acts, e.tag, e.id) || WasDiscarded(s, e.tag, e.id)
      || J.LetGo(s.j, e)
  {
    hide Run;
    hide WasDelivered;
    hide WasDiscarded;
    hide JC.SideInv;
    hide JC.IdsTrue;
    hide PI.Inv;
    var s := Run(c, acts);
    Always(c, acts);
    CommitSafety(c, acts, e.tag, e.id);
    assert JP.Kept(s.j, e);
  }
}
