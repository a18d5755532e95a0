/** What the producer promises, stated of its channels, counts and registries after any run. */
module ProducerTheorems {
  import opened Options
  import opened Producer
  import opened ProducerInvariant
  import opened ProducerSteps
  import opened ProducerProof

  // ---- Acknowledgement conservation ----

  /** The sends of a message that no fork has made yet. */
  ghost function ToSend(c: Config, s: State, o: Obj, n: nat): set<Token> {
    set t | t in TokensOf(o, n) && exists f :: 0 <= f < |s.forks| && Remaining(s.forks[f], t)
  }

  /** The copies of a message in the inboxes and batches of senders. */
  ghost function InInboxes(s: State, o: Obj, n: nat): set<Token> {
    set t | t in TokensOf(o, n) && exists k :: t in Inbox(s.mail, k)
  }

  /** The outcomes of a message that wait for the collector. */
  ghost function Waiting(s: State, o: Obj, n: nat): set<Token> {
    set t | t in TokensOf(o, n) && (t in s.mail.successed || t in s.mail.failed)
  }

  function PendingCount(s: State, o: Obj): nat {
    if o in s.pending then s.pending[o].count else 0
  }

  ghost predicate InChannel(s: State, t: Token) {
    t in s.mail.successed || t in s.mail.failed || exists k :: t in Inbox(s.mail, k)
  }

  ghost predicate Somewhere(s: State, t: Token) {
    InChannel(s, t) || exists f :: 0 <= f < |s.forks| && Remaining(s.forks[f], t)
  }

  lemma PlaceOf(c: Config, s: State, t: Token)
    requires Sends(c, s)
    ensures (exists f :: 0 <= f < |s.forks| && Remaining(s.forks[f], t)) <==> t in s.mail.loc && s.mail.loc[t].AtFork?
    ensures (exists k :: t in Inbox(s.mail, k)) <==> t in s.mail.loc && s.mail.loc[t].AtInbox?
    ensures (t in s.mail.successed || t in s.mail.failed)
        <==> t in s.mail.loc && (s.mail.loc[t] == AtSuccess || s.mail.loc[t] == AtFailed)
  {
    assert forall f :: 0 <= f < |s.forks| ==> (Remaining(s.forks[f], t) <==> IsAt(s.mail.loc, t, AtFork(f)));
    assert forall k :: t in Inbox(s.mail, k) <==> IsAt(s.mail.loc, t, AtInbox(k)) by {
      assert forall k :: Holds(Inbox(s.mail, k), s.mail.loc, AtInbox(k));
    }
    if t in s.mail.loc && s.mail.loc[t].AtInbox? {
      assert t in Inbox(s.mail, s.mail.loc[t].k);
    }
    assert t in s.mail.successed <==> IsAt(s.mail.loc, t, AtSuccess);
    assert t in s.mail.failed <==> IsAt(s.mail.loc, t, AtFailed);
  }

  ghost predicate InOne(t: Token, a: set<Token>, b: set<Token>, d: set<Token>, e: set<Token>) {
    && (t in a ==> t !in b && t !in d && t !in e) && (t in b ==> t !in d && t !in e) && (t in d ==> t !in e)
  }

  lemma Partition4(all: set<Token>, a: set<Token>, b: set<Token>, d: set<Token>, e: set<Token>)
    requires forall t :: t in all <==> t in a || t in b || t in d || t in e
    requires forall t :: InOne(t, a, b, d, e)
    ensures |all| == |a| + |b| + |d| + |e|
  {
    assert a !! b && (a + b) !! d && (a + b + d) !! e by {
      forall t
        ensures !(t in a && t in b) && !((t in a || t in b) && t in d) && !((t in a || t in b || t in d) && t in e)
      {
        assert InOne(t, a, b, d, e);
      }
    }
    assert all == a + b + d + e;
  }

  lemma Classified(c: Config, s: State, o: Obj, n: nat, t: Token)
    requires Sends(c, s) && o in s.info && o in s.stage && s.stage[o] == Sent && n == Parties(c, s.info[o].tag)
    ensures t in TokensOf(o, n) ==> t in s.mail.loc
    ensures t in ToSend(c, s, o, n) <==> t in TokensOf(o, n) && s.mail.loc[t].AtFork?
    ensures t in InInboxes(s, o, n) <==> t in TokensOf(o, n) && s.mail.loc[t].AtInbox?
    ensures t in Waiting(s, o, n) <==> t in TokensOf(o, n) && (s.mail.loc[t] == AtSuccess || s.mail.loc[t] == AtFailed)
    ensures t in CollectedOf(s.mail.loc, o) <==> t in TokensOf(o, n) && s.mail.loc[t] == Collected
  {
    hide Channels;
    hide AtForks;
    hide TokensOf;
    hide Parties;
    TokensAre(o, n);
    assert t in s.mail.loc <==> Alive(c, s, t);
    PlaceOf(c, s, t);
  }

  lemma ClassifiedOnce(c: Config, s: State, o: Obj, n: nat, t: Token)
    requires Sends(c, s) && o in s.info && o in s.stage && s.stage[o] == Sent && n == Parties(c, s.info[o].tag)
    ensures var a, b, d, e := ToSend(c, s, o, n), InInboxes(s, o, n), Waiting(s, o, n), CollectedOf(s.mail.loc, o);
      (t in TokensOf(o, n) <==> t in a || t in b || t in d || t in e) && InOne(t, a, b, d, e)
  {
    hide TokensOf;
    hide Parties;
    hide Sends;
    hide ToSend;
    hide InInboxes;
    hide Waiting;
    hide CollectedOf;
    Classified(c, s, o, n, t);
  }

  lemma ConservedIn(c: Config, s: State, o: Obj)
    requires Sends(c, s) && TallyOk(c, s, o) && o in s.info && o in s.stage && s.stage[o] == Sent
    ensures var n := Parties(c, s.info[o].tag);
            |ToSend(c, s, o, n)| + |InInboxes(s, o, n)| + |Waiting(s, o, n)| + PendingCount(s, o) == n
  {
    hide TokensOf;
    hide Parties;
    hide Sends;
    hide ToSend;
    hide InInboxes;
    hide Waiting;
    hide CollectedOf;
    hide InOne;
    var n := Parties(c, s.info[o].tag);
    var a, b, d, e := ToSend(c, s, o, n), InInboxes(s, o, n), Waiting(s, o, n), CollectedOf(s.mail.loc, o);
    TokenCount(o, n);
    forall t
      ensures t in TokensOf(o, n) <==> t in a || t in b || t in d || t in e
      ensures InOne(t, a, b, d, e)
    {
      ClassifiedOnce(c, s, o, n, t);
    }
    Partition4(TokensOf(o, n), a, b, d, e);
  }

  /** After any run: for a message being sent, the sends still to make, the copies in inboxes and batches, the outcomes
      on their way and the count of the collector add up to its number of parties; no copy is anywhere twice; and
      for any other object there is no copy, no outcome and no count at all, so that an object that comes back
      starts from nothing. */
  lemma AcknowledgementConservation(c: Config, nfork: nat, acts: seq<Action>, o: Obj)
    ensures var s := Run(c, nfork, acts);
      && NoDup(s.mail.successed) && NoDup(s.mail.failed) && (forall k :: NoDup(Inbox(s.mail, k)))
      && (forall t :: t in s.mail.successed ==> t !in s.mail.failed)
      && (forall k, t :: t in Inbox(s.mail, k) ==> t !in s.mail.successed && t !in s.mail.failed)
      && (forall k, h, t :: t in Inbox(s.mail, k) && t in Inbox(s.mail, h) ==> k == h)
      && (if o in s.stage && s.stage[o] == Sent then
            && o in s.info
            && (forall t :: Somewhere(s, t) && t.obj == o ==> t in TokensOf(o, Parties(c, s.info[o].tag)))
            && var n := Parties(c, s.info[o].tag);
               |ToSend(c, s, o, n)| + |InInboxes(s, o, n)| + |Waiting(s, o, n)| + PendingCount(s, o) == n
          else o !in s.pending && forall t :: Somewhere(s, t) ==> t.obj != o)
  {
    hide Run;
    hide AtForks;
    hide TokensOf;
    hide Registries;
    hide Parties;
    hide Verdicts;
    hide UsesOk;
    hide Outcomes;
    var s := Run(c, nfork, acts);
    Always(c, nfork, acts);
    assert TallyOk(c, s, o);
    assert forall k :: Holds(Inbox(s.mail, k), s.mail.loc, AtInbox(k));
    forall k, t ensures t in Inbox(s.mail, k) ==> IsAt(s.mail.loc, t, AtInbox(k)) {
      assert Holds(Inbox(s.mail, k), s.mail.loc, AtInbox(k));
    }
    forall t ensures Somewhere(s, t) ==> Alive(c, s, t) {
      PlaceOf(c, s, t);
      assert t in s.mail.loc <==> Alive(c, s, t);
    }
    if o in s.stage && s.stage[o] == Sent {
      TokensAre(o, Parties(c, s.info[o].tag));
      ConservedIn(c, s, o);
    } else {
      NoCount(c, s, o);
    }
  }

  lemma NoCount(c: Config, s: State, o: Obj)
    requires Enlisted(c, s) && TallyOk(c, s, o) && !(o in s.stage && s.stage[o] == Sent)
    ensures o !in s.pending
  {
    forall t ensures t !in CollectedOf(s.mail.loc, o) {
      assert t in s.mail.loc <==> Alive(c, s, t);
    }
  }

  // ---- Verdicts ----

  /** Each use of an object is finalised at most once: it has one final, or is still in the producer, never both. And
      it is finalised with exactly one outcome of each of its parties, committed iff all of them are successes. */
  lemma FinalisedOnceAndRightly(c: Config, nfork: nat, acts: seq<Action>)
    ensures var s := Run(c, nfork, acts);
      && (forall i, j :: 0 <= i < j < |s.finals| ==> s.finals[i].info.use != s.finals[j].info.use)
      && (forall o :: o in s.info ==> s.info[o].use < |s.uses| && s.uses[s.info[o].use].obj == o)
      && (forall i, o :: 0 <= i < |s.finals| && o in s.info ==> s.finals[i].info.use != s.info[o].use)
      && (forall u :: 0 <= u < |s.uses| ==>
            var use := s.uses[u];
            match use.ended
            case None => use.obj in s.info && s.info[use.obj] == use.info
            case Some(i) => i < |s.finals| && s.finals[i].obj == use.obj && s.finals[i].info == use.info)
      && (forall i :: 0 <= i < |s.finals| ==>
            var fin := s.finals[i];
            && (forall j :: j in fin.acks <==> 0 <= j < Parties(c, fin.info.tag))
            && (fin.committed <==> forall j :: j in fin.acks ==> fin.acks[j]))
  {
    hide Run;
    hide Registries;
    hide Messages;
    hide Sends;
    hide Tallies;
    var s := Run(c, nfork, acts);
    Always(c, nfork, acts);
    assert UsesOk(s);
    assert forall i :: 0 <= i < |s.finals| ==> FinalOk(c, s.finals[i]);
    assert forall u :: 0 <= u < |s.uses| ==> UseOk(s, u, s.uses[u]);
  }

  lemma ForkFinals(c: Config, s: State, f: nat, full: bool)
    requires f < |s.forks|
    ensures ForkStep(c, s, f, full).finals == s.finals
  {
    hide NextPc;
    hide NextReg;
    hide NextMail;
    hide Enlist;
  }

  lemma TalliedFinals(s: State, t: Token, ok: bool)
    ensures s.finals <= Tallied(s, t, ok).finals && |Tallied(s, t, ok).finals| <= |s.finals| + 1
  {
    hide AcksOf;
    hide BlockedOf;
    hide TokensOf;
    hide EndUse;
    hide Count;
  }

  /** A verdict stands: no step takes one back or changes it, and none adds more than one. */
  lemma VerdictsStand(c: Config, s: State, a: Action)
    ensures s.finals <= Next(c, s, a).finals && |Next(c, s, a).finals| <= |s.finals| + 1
  {
    hide ForkStep;
    hide Reported;
    hide Tallied;
    match a
    case Fork(f, full) => if f < |s.forks| { ForkFinals(c, s, f, full); }
    case Collect(ok) =>
      if ok && s.mail.successed != [] {
        TalliedFinals(s.(mail := s.mail.(successed := s.mail.successed[1..])), s.mail.successed[0], true);
      } else if !ok && s.mail.failed != [] {
        TalliedFinals(s.(mail := s.mail.(failed := s.mail.failed[1..])), s.mail.failed[0], false);
      }
    case _ =>
  }

  // ---- Registry publication ----

  /** After any run: the lock is held by the one fork in the critical section; a tag visible in tag2SenderCaches has the
      length of its list as its count; the tag of every waiting outcome is registered, so the collector has never
      panicked and will not panic on what it takes next; and each sender has been spawned at most once. */
  lemma RegistryPublication(c: Config, nfork: nat, acts: seq<Action>)
    ensures var s := Run(c, nfork, acts);
      && !s.panicked
      && NoDup(s.reg.spawnLog)
      && (forall f, g :: 0 <= f < |s.forks| && 0 <= g < |s.forks| && Locked(s.forks[f]) && Locked(s.forks[g])
            ==> f == g)
      && (forall tag :: tag in s.reg.tag2SenderCaches ==>
            && tag in s.reg.tag2NSender
            && s.reg.tag2NSender[tag] == |s.reg.tag2SenderCaches[tag]|
            && s.reg.tag2SenderCaches[tag] == Accept(c, c.senders, tag))
      && (forall t :: t in s.mail.successed || t in s.mail.failed ==>
            && t.obj in s.info && s.info[t.obj].tag in s.reg.tag2NSender
            && s.reg.tag2NSender[s.info[t.obj].tag] == Parties(c, s.info[t.obj].tag))
  {
    hide Run;
    hide Tallies;
    hide AtForks;
    hide UsesOk;
    hide Accept;
    hide PcOk;
    hide Verdicts;
    hide Holders;
    hide Queue;
    hide Outcomes;
    var s := Run(c, nfork, acts);
    Always(c, nfork, acts);
    forall t | t in s.mail.successed || t in s.mail.failed
      ensures t.obj in s.info && s.info[t.obj].tag in s.reg.tag2NSender
           && s.reg.tag2NSender[s.info[t.obj].tag] == Parties(c, s.info[t.obj].tag)
    {
      assert t in s.mail.successed <==> IsAt(s.mail.loc, t, AtSuccess);
      assert t in s.mail.failed <==> IsAt(s.mail.loc, t, AtFailed);
      assert Alive(c, s, t);
    }
  }

  // ---- Each copy goes to the sender it is for ----

  ghost predicate ForSender(c: Config, s: State, t: Token, k: Sender) {
    && t.obj in s.info
    && t.slot < |Accept(c, c.senders, s.info[t.obj].tag)|
    && Accept(c, c.senders, s.info[t.obj].tag)[t.slot] == k
  }

  ghost predicate RightInboxes(c: Config, s: State) {
    forall t :: t in s.mail.loc && s.mail.loc[t].AtInbox? ==> ForSender(c, s, t, s.mail.loc[t].k)
  }

  lemma SendsToRightInbox(c: Config, s: State, f: nat, full: bool)
    requires f < |s.forks| && Inv(c, s) && RightInboxes(c, s)
    ensures RightInboxes(c, ForkStep(c, s, f, full))
  {
    hide NextPc;
    hide NextReg;
    hide NextMail;
    hide Holding;
    hide TokensOf;
    hide Messages;
    hide Ends;
    hide Channels;
    hide Published;
    hide SpawnedOnce;
    hide Locks;
    hide AtForks;
    hide Accept;
    hide PcOk;
    hide Parties;
    var pc, n := s.forks[f], ForkStep(c, s, f, full);
    assert PcOk(c, s.reg, TagOf(s, pc), pc);
    assert n.info == s.info;
    forall t | t in n.mail.loc && n.mail.loc[t].AtInbox? ensures ForSender(c, n, t, n.mail.loc[t].k) {
      if !(Holding(pc).Some? && Holding(NextPc(c, s.reg, TagOf(s, pc), pc)).None?) {
        MailRight(c, s.reg, s.mail, TagOf(s, pc), pc, full, t);
      }
    }
  }

  lemma MailRight(c: Config, r: Registry, m: Mail, tag: Tag, pc: Pc, full: bool, t: Token)
    requires PcOk(c, r, tag, pc)
    requires t in NextMail(c, m, pc, full).loc && NextMail(c, m, pc, full).loc[t].AtInbox?
    ensures (t in m.loc && m.loc[t] == NextMail(c, m, pc, full).loc[t])
         || (ObjOf(pc) == Some(t.obj) && t.slot < |Accept(c, c.senders, tag)|
             && Accept(c, c.senders, tag)[t.slot] == NextMail(c, m, pc, full).loc[t].k)
  {
  }

  lemma RightInboxesKept(c: Config, s: State, a: Action)
    requires Inv(c, s) && RightInboxes(c, s)
    ensures RightInboxes(c, Next(c, s, a))
  {
    hide ForkStep;
    hide Accept;
    hide Count;
    hide AcksOf;
    hide BlockedOf;
    hide Messages;
    hide Ends;
    hide AtForks;
    hide Published;
    hide Locks;
    hide Pcs;
    match a
    case Fork(f, full) => if f < |s.forks| { SendsToRightInbox(c, s, f, full); }
    case Submit(o, tag, id, extIds) =>
    case Receive(f) =>
    case Report(k, i, ok) =>
    case Collect(ok) => CollectRight(c, s, ok);
  }

  lemma TookRight(c: Config, s: State, ok: bool, p: map<Obj, PendingDiscard>)
    requires (if ok then s.mail.successed else s.mail.failed) != [] && RightInboxes(c, s)
    ensures RightInboxes(c, Took(s, ok).(pending := p))
  {
    hide Accept;
    var n := Took(s, ok).(pending := p);
    forall t | t in n.mail.loc && n.mail.loc[t].AtInbox? ensures ForSender(c, n, t, n.mail.loc[t].k) {
      assert ForSender(c, s, t, s.mail.loc[t].k);
    }
  }

  lemma FinishRight(c: Config, s: State, o: Obj, n: nat, verdict: bool)
    requires o in s.info && RightInboxes(c, s) && n == Parties(c, s.info[o].tag)
    requires forall t :: t in s.mail.loc && t.obj == o ==> t in TokensOf(o, n)
    ensures RightInboxes(c, Finish(s, o, n, verdict))
  {
    hide Accept;
    hide AcksOf;
    hide BlockedOf;
    hide TokensOf;
    hide Parties;
    hide EndUse;
    var f := Finish(s, o, n, verdict);
    forall t | t in f.mail.loc && f.mail.loc[t].AtInbox? ensures ForSender(c, f, t, f.mail.loc[t].k) {
      assert ForSender(c, s, t, s.mail.loc[t].k);
    }
  }

  lemma CollectRight(c: Config, s: State, ok: bool)
    requires Inv(c, s) && RightInboxes(c, s)
    ensures RightInboxes(c, Collecting(s, ok))
  {
    hide RightInboxes;
    hide Finish;
    hide Count;
    hide Parties;
    hide TokensOf;
    hide Registries;
    hide Messages;
    hide Ends;
    hide Channels;
    hide AtForks;
    hide Took;
    if (if ok then s.mail.successed else s.mail.failed) != [] {
      var t := First(s.mail, ok);
      TookSends(c, s, ok);
      PublishedTag(c, s, t.obj);
      var due := Parties(c, s.info[t.obj].tag);
      CollectingIs(s, ok, due);
      hide Collecting;
      match Count(s.pending, t.obj, ok, due)
      case Wait(p) => TookRight(c, s, ok, p);
      case Done(p, verdict) =>
        TookRight(c, s, ok, p);
        OwnPlaces(c, s, t, ok, due);
        FinishRight(c, Took(s, ok).(pending := p), t.obj, due, verdict);
    }
  }

  lemma OwnPlaces(c: Config, s: State, t: Token, ok: bool, due: nat)
    requires (if ok then s.mail.successed else s.mail.failed) != [] && t == First(s.mail, ok)
    requires Enlisted(c, s) && Alive(c, s, t) && due == Parties(c, s.info[t.obj].tag)
    ensures Took(s, ok).info == s.info
    ensures forall u :: u in Took(s, ok).mail.loc && u.obj == t.obj ==> u in TokensOf(t.obj, due)
  {
    hide Parties;
    TokensAre(t.obj, due);
    hide TokensOf;
    forall u | u in Took(s, ok).mail.loc && u.obj == t.obj ensures u in TokensOf(t.obj, due) {
      assert u in s.mail.loc <==> Alive(c, s, u);
    }
  }

  /** After any run, a copy of a message in the inbox or batch of a sender is the copy meant for that sender. */
  lemma {:induction false} CopiesReachTheirSenders(c: Config, nfork: nat, acts: seq<Action>)
    ensures RightInboxes(c, Run(c, nfork, acts))
    ensures forall k, t :: t in Inbox(Run(c, nfork, acts).mail, k) ==> ForSender(c, Run(c, nfork, acts), t, k)
    decreases |acts|
  {
    hide Inv;
    hide Next;
    hide ForSender;
    if acts != [] {
      CopiesReachTheirSenders(c, nfork, acts[..|acts| - 1]);
      Always(c, nfork, acts[..|acts| - 1]);
      RightInboxesKept(c, Run(c, nfork, acts[..|acts| - 1]), acts[|acts| - 1]);
    }
    Always(c, nfork, acts);
    InboxesRight(c, Run(c, nfork, acts));
  }

  lemma InboxesRight(c: Config, s: State)
    requires Inv(c, s) && RightInboxes(c, s)
    ensures forall k, t :: t in Inbox(s.mail, k) ==> ForSender(c, s, t, k)
  {
    hide ForSender;
    hide Registries;
    hide Messages;
    hide Ends;
    hide AtForks;
    hide Enlisted;
    forall k, t | t in Inbox(s.mail, k) ensures ForSender(c, s, t, k) {
      assert Holds(Inbox(s.mail, k), s.mail.loc, AtInbox(k));
      assert IsAt(s.mail.loc, t, AtInbox(k));
    }
  }
}
