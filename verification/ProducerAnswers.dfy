/** Who answers for what: a fork answers for a tag that no sender supports, and for a full inbox by the policy of its
    sender; every other outcome is a sender's own. */
module ProducerAnswers {
  import opened Options
  import opened Producer
  import opened ProducerInvariant
  import opened ProducerSteps
  import opened ProducerProof
  import opened ProducerTheorems

  /** An unsupported tag is a success; a send that found an inbox full has the answer its sender is configured for. */
  ghost predicate AnswerOk(c: Config, tag: Tag, slot: nat, blocked: bool, ok: bool) {
    var acc := Accept(c, c.senders, tag);
    (acc == [] ==> ok) && (blocked ==> slot < |acc| && ok == c.discardWhenBlocked(acc[slot]))
  }

  ghost predicate Answers(c: Config, s: State) {
    && (forall t :: t in s.mail.blocked ==> t in s.mail.acks)
    && (forall t :: t in s.mail.acks ==>
          t.obj in s.info && AnswerOk(c, s.info[t.obj].tag, t.slot, t in s.mail.blocked, s.mail.acks[t]))
  }

  ghost predicate FinalAnswered(c: Config, fin: Final) {
    && (Accept(c, c.senders, fin.info.tag) == [] ==> fin.committed)
    && forall j :: j in fin.blocked ==> j in fin.acks && AnswerOk(c, fin.info.tag, j, true, fin.acks[j])
  }

  ghost predicate AllAnswered(c: Config, s: State) {
    Answers(c, s) && forall i :: 0 <= i < |s.finals| ==> FinalAnswered(c, s.finals[i])
  }

  lemma MailAnswers(c: Config, r: Registry, m: Mail, tag: Tag, pc: Pc, full: bool, t: Token)
    requires PcOk(c, r, tag, pc) && t in NextMail(c, m, pc, full).acks
    requires forall u :: u in m.blocked ==> u in m.acks
    requires SendOf(pc).Some? ==> SendOf(pc).value !in m.acks
    ensures var n := NextMail(c, m, pc, full);
      || (t in m.acks && n.acks[t] == m.acks[t] && (t in n.blocked <==> t in m.blocked))
      || (ObjOf(pc) == Some(t.obj) && AnswerOk(c, tag, t.slot, t in n.blocked, n.acks[t]))
  {
  }

  lemma MailBlocks(c: Config, m: Mail, pc: Pc, full: bool)
    requires forall u :: u in m.blocked ==> u in m.acks
    ensures forall u :: u in NextMail(c, m, pc, full).blocked ==> u in NextMail(c, m, pc, full).acks
  {
  }

  lemma NotYet(c: Config, s: State, f: nat)
    requires f < |s.forks| && Sends(c, s) && SendOf(s.forks[f]).Some?
    ensures SendOf(s.forks[f]).value !in s.mail.acks
  {
    hide Alive;
    hide Holds;
    var t := SendOf(s.forks[f]).value;
    SendMade(c, s.reg, "", s.forks[f], t);
    SentFrom(s.forks, s.mail.loc, f, t);
    assert t in s.mail.acks <==> IsReported(s.mail.loc, t);
  }

  lemma ForkAnswers(c: Config, s: State, f: nat, full: bool)
    requires f < |s.forks| && Inv(c, s) && AllAnswered(c, s)
    ensures AllAnswered(c, ForkStep(c, s, f, full))
  {
    hide NextPc;
    hide NextReg;
    hide NextMail;
    hide Holding;
    hide TokensOf;
    hide Messages;
    hide Ends;
    hide Published;
    hide SpawnedOnce;
    hide Locks;
    hide Sends;
    hide PcOk;
    hide Parties;
    hide SendOf;
    hide AnswerOk;
    hide FinalAnswered;
    var pc, n := s.forks[f], ForkStep(c, s, f, full);
    assert PcOk(c, s.reg, TagOf(s, pc), pc);
    if SendOf(pc).Some? { NotYet(c, s, f); }
    if !(Holding(pc).Some? && Holding(NextPc(c, s.reg, TagOf(s, pc), pc)).None?) {
      MailBlocks(c, s.mail, pc, full);
      forall t | t in n.mail.acks
        ensures t.obj in n.info && AnswerOk(c, n.info[t.obj].tag, t.slot, t in n.mail.blocked, n.mail.acks[t])
      {
        MailAnswers(c, s.reg, s.mail, TagOf(s, pc), pc, full, t);
      }
    }
  }

  lemma ReportAnswers(c: Config, s: State, k: Sender, i: nat, ok: bool)
    requires Inv(c, s) && AllAnswered(c, s) && i < |Inbox(s.mail, k)|
    requires ForSender(c, s, Inbox(s.mail, k)[i], k) && Inbox(s.mail, k)[i] !in s.mail.acks
    ensures AllAnswered(c, s.(mail := Reported(s.mail, k, i, ok)))
  {
    hide Inv;
    hide FinalAnswered;
  }

  /** A send that waits in an inbox is for a sender that supports the tag, and has no outcome yet. */
  lemma InInbox(c: Config, s: State, k: Sender, i: nat)
    requires Inv(c, s) && RightInboxes(c, s) && i < |Inbox(s.mail, k)|
    ensures ForSender(c, s, Inbox(s.mail, k)[i], k) && Inbox(s.mail, k)[i] !in s.mail.acks
  {
    hide ForSender;
    hide Registries;
    hide Messages;
    hide Ends;
    hide AtForks;
    hide Enlisted;
    var t := Inbox(s.mail, k)[i];
    InboxesRight(c, s);
    assert Holds(Inbox(s.mail, k), s.mail.loc, AtInbox(k)) && t in Inbox(s.mail, k);
    assert IsAt(s.mail.loc, t, AtInbox(k));
    assert t in s.mail.acks <==> IsReported(s.mail.loc, t);
  }

  lemma FinishAnswers(c: Config, s: State, o: Obj, n: nat, verdict: bool)
    requires AllAnswered(c, s) && o in s.info && n == Parties(c, s.info[o].tag)
    requires verdict <==> AllTrue(s.mail.acks, TokensOf(o, n))
    requires forall t :: t in TokensOf(o, n) ==> t in s.mail.acks
    requires forall t :: t in s.mail.acks && t.obj == o ==> t in TokensOf(o, n)
    ensures AllAnswered(c, Finish(s, o, n, verdict))
  {
    hide AnswerOk;
    hide Parties;
    hide TokensOf;
    var fin := Final(o, s.info[o], verdict, AcksOf(s.mail, o, n), BlockedOf(s.mail, o, n));
    TokensAre(o, n);
    assert FinalAnswered(c, fin) by {
      if Accept(c, c.senders, fin.info.tag) == [] {
        forall t | t in TokensOf(o, n) ensures s.mail.acks[t] {
          AnswerTrue(c, fin.info.tag, t.slot, t in s.mail.blocked, s.mail.acks[t]);
        }
      }
    }
  }

  lemma AnswerTrue(c: Config, tag: Tag, slot: nat, blocked: bool, ok: bool)
    requires AnswerOk(c, tag, slot, blocked, ok) && Accept(c, c.senders, tag) == []
    ensures ok
  {
  }

  lemma CollectAnswers(c: Config, s: State, ok: bool)
    requires Inv(c, s) && AllAnswered(c, s)
    ensures AllAnswered(c, Collecting(s, ok))
  {
    hide Registries;
    hide Finish;
    hide Count;
    hide UsesOk;
    hide AnswerOk;
    hide FinalAnswered;
    hide Parties;
    hide TokensOf;
    hide AtForks;
    hide Holds;
    hide AllAnswered;
    hide Taken;
    hide Tallies;
    if (if ok then s.mail.successed else s.mail.failed) != [] {
      var t := First(s.mail, ok);
      TookSends(c, s, ok);
      assert Alive(c, s, t) && TallyOk(c, s, t.obj) by { TallyHolds(c, s, t.obj); }
      PublishedTag(c, s, t.obj);
      var due := Parties(c, s.info[t.obj].tag);
      CollectingIs(s, ok, due);
      hide Collecting;
      CountedIn(c, s, t, ok);
      match Count(s.pending, t.obj, ok, due)
      case Wait(p) => TookAnswers(c, s, ok, p);
      case Done(p, verdict) =>
        TookAnswers(c, s, ok, p);
        AllIncluded(c, s, t, due);
        FinishAnswers(c, Took(s, ok).(pending := p), t.obj, due, verdict);
    }
  }

  lemma TallyHolds(c: Config, s: State, o: Obj)
    requires Tallies(c, s)
    ensures TallyOk(c, s, o)
  {
  }

  lemma TookAnswers(c: Config, s: State, ok: bool, p: map<Obj, PendingDiscard>)
    requires (if ok then s.mail.successed else s.mail.failed) != [] && AllAnswered(c, s)
    ensures AllAnswered(c, Took(s, ok).(pending := p))
    ensures Took(s, ok).mail.acks == s.mail.acks
  {
  }

  lemma AllIncluded(c: Config, s: State, t: Token, due: nat)
    requires Sends(c, s) && t in s.mail.acks && t.obj in s.info && due == Parties(c, s.info[t.obj].tag)
    requires CollectedOf(s.mail.loc[t := Collected], t.obj) == TokensOf(t.obj, due)
    ensures forall u :: u in TokensOf(t.obj, due) ==> u in s.mail.acks
    ensures forall u :: u in s.mail.acks && u.obj == t.obj ==> u in TokensOf(t.obj, due)
  {
    hide AtForks;
    hide Holds;
    hide TokensOf;
    hide Parties;
    TokensAre(t.obj, due);
    forall u | u in TokensOf(t.obj, due) ensures u in s.mail.acks {
      assert u in CollectedOf(s.mail.loc[t := Collected], t.obj);
      assert u in s.mail.acks <==> IsReported(s.mail.loc, u);
    }
    forall u | u in s.mail.acks && u.obj == t.obj ensures u in TokensOf(t.obj, due) {
      assert u in s.mail.acks <==> IsReported(s.mail.loc, u);
      assert Alive(c, s, u);
    }
  }

  lemma AnswersKept(c: Config, s: State, a: Action)
    requires Inv(c, s) && RightInboxes(c, s) && AllAnswered(c, s)
    ensures AllAnswered(c, Next(c, s, a))
  {
    hide Inv;
    hide ForkStep;
    hide AnswerOk;
    hide FinalAnswered;
    hide Collecting;
    hide Reported;
    hide RightInboxes;
    match a
    case Fork(f, full) => if f < |s.forks| { ForkAnswers(c, s, f, full); }
    case Report(k, i, ok) =>
      if i < |Inbox(s.mail, k)| {
        InInbox(c, s, k, i);
        ReportAnswers(c, s, k, i, ok);
      }
    case Collect(ok) => CollectAnswers(c, s, ok);
    case Submit(o, tag, id, extIds) =>
    case Receive(f) =>
  }

  /** After any run: a message of a tag that no sender supports is always committed; and a send that found the inbox of
      its sender full counts as a success iff that sender is one that discards when blocked. */
  lemma {:induction false} AnsweredForRightly(c: Config, nfork: nat, acts: seq<Action>)
    ensures var s := Run(c, nfork, acts);
      && AllAnswered(c, s)
      && forall i :: 0 <= i < |s.finals| ==>
           var fin := s.finals[i];
           var acc := Accept(c, c.senders, fin.info.tag);
           && (acc == [] ==> fin.committed)
           && forall j :: j in fin.blocked ==>
                j in fin.acks && j < |acc| && fin.acks[j] == c.discardWhenBlocked(acc[j])
    decreases |acts|
  {
    hide Inv;
    hide Next;
    hide Answers;
    hide RightInboxes;
    if acts != [] {
      var front := acts[..|acts| - 1];
      AnsweredForRightly(c, nfork, front);
      Always(c, nfork, front);
      CopiesReachTheirSenders(c, nfork, front);
      AnswersKept(c, Run(c, nfork, front), acts[|acts| - 1]);
    } else {
      NoAnswers(c, nfork);
    }
  }

  lemma NoAnswers(c: Config, nfork: nat)
    ensures AllAnswered(c, Init(nfork))
  {
  }
}
