/** The guarantees of the producer, over every run. */
module ProducerProof {
  import opened Options
  import opened Producer
  import opened ProducerInvariant
  import opened ProducerSteps

  // ---- Messages arriving and being taken ----

  lemma QueueJoined(q: seq<Obj>, stage: map<Obj, Stage>, o: Obj)
    requires Queue(q, stage) && o !in stage
    ensures Queue(q + [o], stage[o := Queued])
  {
    assert o !in q;
    forall x ensures x in q + [o] <==> x in stage[o := Queued] && stage[o := Queued][x] == Queued {
      assert x in q <==> x in stage && stage[x] == Queued;
    }
  }

  lemma QueueLeft(q: seq<Obj>, stage: map<Obj, Stage>, f: nat)
    requires Queue(q, stage) && q != []
    ensures q[0] in stage && stage[q[0]] == Queued && Queue(q[1..], stage[q[0] := Held(f)])
  {
    assert q[0] in q;
    assert Drop(q, 0) == q[1..];
    DropElements(q, 0);
    forall x ensures x in q[1..] <==> x in stage[q[0] := Held(f)] && stage[q[0] := Held(f)][x] == Queued {
      assert x in q <==> x in stage && stage[x] == Queued;
    }
  }

  lemma SubmittedRegistries(c: Config, s: State, o: Obj, tag: Tag, id: int, extIds: seq<int>)
    requires Registries(c, s) && o !in s.info
    ensures Registries(c, Submitted(s, o, tag, id, extIds))
  {
    hide PcOk;
    hide Locks;
    hide Published;
    hide SpawnedOnce;
    hide ObjOf;
    var n := Submitted(s, o, tag, id, extIds);
    forall f | 0 <= f < |s.forks|
      ensures ObjOf(s.forks[f]).Some? ==> ObjOf(s.forks[f]).value in n.info
      ensures PcOk(c, s.reg, TagOf(n, s.forks[f]), s.forks[f])
    {
      assert TagOf(n, s.forks[f]) == TagOf(s, s.forks[f]);
    }
  }

  lemma SubmittedMessages(s: State, o: Obj, tag: Tag, id: int, extIds: seq<int>)
    requires Messages(s) && o !in s.info
    ensures Messages(Submitted(s, o, tag, id, extIds))
  {
    hide Queue;
    hide Holding;
    QueueJoined(s.inChan, s.stage, o);
  }

  lemma SubmittedSends(c: Config, s: State, o: Obj, tag: Tag, id: int, extIds: seq<int>)
    requires Sends(c, s) && Tallies(c, s) && o !in s.info
    ensures var n := Submitted(s, o, tag, id, extIds); Sends(c, n) && Tallies(c, n)
  {
    hide Channels;
    hide AtForks;
    hide Tallies;
    hide Parties;
    var n := Submitted(s, o, tag, id, extIds);
    assert Enlisted(c, n) by {
      forall t ensures t in n.mail.loc <==> Alive(c, n, t) {
        assert t in s.mail.loc <==> Alive(c, s, t);
      }
    }
    TalliesStand(c, s, n);
  }

  lemma SubmitKept(c: Config, s: State, o: Obj, tag: Tag, id: int, extIds: seq<int>)
    requires Inv(c, s) && o !in s.info
    ensures Inv(c, Submitted(s, o, tag, id, extIds))
  {
    hide Registries;
    hide Messages;
    hide Sends;
    hide Tallies;
    hide UsesOk;
    hide FinalOk;
    SubmittedRegistries(c, s, o, tag, id, extIds);
    SubmittedMessages(s, o, tag, id, extIds);
    SubmittedSends(c, s, o, tag, id, extIds);
    SubmittedUses(s, o, tag, id, extIds);
  }

  lemma SubmittedUses(s: State, o: Obj, tag: Tag, id: int, extIds: seq<int>)
    requires UsesOk(s) && o !in s.info
    ensures UsesOk(Submitted(s, o, tag, id, extIds))
  {
    var n := Submitted(s, o, tag, id, extIds);
    forall u: nat | u < |n.uses| ensures UseOk(n, u, n.uses[u]) {
      if u < |s.uses| { assert UseOk(s, u, s.uses[u]); }
    }
  }

  lemma ReceivedRegistries(c: Config, s: State, f: nat)
    requires Registries(c, s) && Messages(s) && f < |s.forks| && s.forks[f] == Idle && s.inChan != []
    ensures Registries(c, Received(s, f))
  {
    hide Published;
    hide SpawnedOnce;
    hide NoDup;
    var n := Received(s, f);
    assert s.inChan[0] in s.inChan;
    forall g | 0 <= g < |s.forks|
      ensures ObjOf(n.forks[g]).Some? ==> ObjOf(n.forks[g]).value in n.info
      ensures PcOk(c, n.reg, TagOf(n, n.forks[g]), n.forks[g])
    {
      if g != f { assert n.forks[g] == s.forks[g]; }
    }
  }

  lemma ReceivedMessages(s: State, f: nat)
    requires Messages(s) && f < |s.forks| && s.forks[f] == Idle && s.inChan != []
    ensures Messages(Received(s, f))
  {
    hide Queue;
    hide Holding;
    hide Holders;
    QueueLeft(s.inChan, s.stage, f);
    HoldersTake(s.forks, s.stage, f, s.inChan[0]);
  }

  lemma HoldersTake(forks: seq<Pc>, stage: map<Obj, Stage>, f: nat, o: Obj)
    requires Holders(forks, stage) && f < |forks| && forks[f] == Idle && o in stage && stage[o] == Queued
    ensures Holders(forks[f := Check(o)], stage[o := Held(f)])
  {
    assert Holding(Check(o)) == Some(o);
  }

  lemma ReceivedSends(c: Config, s: State, f: nat)
    requires Messages(s) && Sends(c, s) && Tallies(c, s) && f < |s.forks| && s.forks[f] == Idle && s.inChan != []
    ensures Sends(c, Received(s, f)) && Tallies(c, Received(s, f))
  {
    hide Channels;
    hide Queue;
    hide AtForks;
    hide Tallies;
    var n := Received(s, f);
    QueueLeft(s.inChan, s.stage, f);
    assert Enlisted(c, n) by {
      forall t ensures t in n.mail.loc <==> Alive(c, n, t) {
        assert t in s.mail.loc <==> Alive(c, s, t);
      }
    }
    ForksStay(s.forks, s.mail.loc, f, n.forks[f]);
    TalliesStand(c, s, n);
  }

  lemma ReceiveKept(c: Config, s: State, f: nat)
    requires Inv(c, s) && f < |s.forks| && s.forks[f] == Idle && s.inChan != []
    ensures Inv(c, Received(s, f))
  {
    hide Registries;
    hide Messages;
    hide Sends;
    hide Tallies;
    hide UsesOk;
    hide FinalOk;
    ReceivedRegistries(c, s, f);
    ReceivedMessages(s, f);
    ReceivedSends(c, s, f);
    UsesStand(s, Received(s, f));
  }

  // ---- Senders report ----

  lemma ReportKept(c: Config, s: State, k: Sender, i: nat, ok: bool)
    requires Inv(c, s) && i < |Inbox(s.mail, k)|
    ensures Inv(c, s.(mail := Reported(s.mail, k, i, ok)))
  {
    hide Channels;
    hide Inbox;
    hide AtForks;
    hide Tallies;
    hide UsesOk;
    hide FinalOk;
    hide Registries;
    hide Messages;
    var n, t, to := s.(mail := Reported(s.mail, k, i, ok)), Inbox(s.mail, k)[i], if ok then AtSuccess else AtFailed;
    ChannelsReported(s.mail, k, i, ok);
    ForksMoved(s.forks, s.mail.loc, t, to);
    assert Registries(c, n) && Messages(n) by { MailApart(c, s, Reported(s.mail, k, i, ok)); }
    assert Enlisted(c, n) by {
      forall u ensures u in n.mail.loc <==> Alive(c, n, u) {
        assert u in s.mail.loc <==> Alive(c, s, u);
      }
    }
    MovedStands(c, s, n, t, to);
    UsesStand(s, n);
  }

  lemma MailApart(c: Config, s: State, m: Mail)
    requires Registries(c, s) && Messages(s)
    ensures Registries(c, s.(mail := m)) && Messages(s.(mail := m))
  {
    var n := s.(mail := m);
    assert forall pc :: TagOf(n, pc) == TagOf(s, pc);
  }

  // ---- The collector ----

  lemma TokenCount(o: Obj, n: nat)
    ensures |TokensOf(o, n)| == n
  {
    if n == 0 {
      assert TokensOf(o, n) == {};
    } else {
      TokenCount(o, n - 1);
      assert TokensOf(o, n) == TokensOf(o, n - 1) + {Token(o, n - 1)};
    }
  }

  lemma SubsetCount(a: set<Token>, b: set<Token>)
    requires a <= b
    ensures |a| <= |b| && (|a| == |b| ==> a == b)
  {
    assert b == a + (b - a);
  }

  /** The state once the collector has taken `t` off its channel but not yet counted it. */
  function Took(s: State, ok: bool): State
    requires (if ok then s.mail.successed else s.mail.failed) != []
  {
    s.(mail := Taken(s.mail, ok))
  }

  function First(m: Mail, ok: bool): Token
    requires (if ok then m.successed else m.failed) != []
  {
    if ok then m.successed[0] else m.failed[0]
  }

  lemma TookSends(c: Config, s: State, ok: bool)
    requires Sends(c, s) && (if ok then s.mail.successed else s.mail.failed) != []
    ensures Sends(c, Took(s, ok))
    ensures var t := First(s.mail, ok);
            && t in s.mail.loc && s.mail.loc[t] == (if ok then AtSuccess else AtFailed)
            && t in s.mail.acks && s.mail.acks[t] == ok
  {
    hide Channels;
    hide AtForks;
    ChannelsTaken(s.mail, ok);
    ForksMoved(s.forks, s.mail.loc, First(s.mail, ok), Collected);
    var n := Took(s, ok);
    forall u ensures u in n.mail.loc <==> Alive(c, n, u) {
      assert u in s.mail.loc <==> Alive(c, s, u);
    }
  }

  lemma OneMore(loc: map<Token, Loc>, acks: map<Token, bool>, t: Token)
    requires t in loc && loc[t] != Collected && t in acks
    ensures var was, got := CollectedOf(loc, t.obj), CollectedOf(loc[t := Collected], t.obj);
            && got == was + {t} && |got| == |was| + 1
            && (AllTrue(acks, got) <==> AllTrue(acks, was) && acks[t])
  {
    var was, got := CollectedOf(loc, t.obj), CollectedOf(loc[t := Collected], t.obj);
    assert got == was + {t} && t !in was;
  }

  lemma OwnTokens(c: Config, s: State, t: Token)
    requires Enlisted(c, s) && t in s.mail.loc
    ensures t.obj in s.info
    ensures var n := Parties(c, s.info[t.obj].tag);
            var got := CollectedOf(s.mail.loc[t := Collected], t.obj);
            got <= TokensOf(t.obj, n) && |got| <= n && (|got| == n ==> got == TokensOf(t.obj, n))
  {
    hide TokensOf;
    hide Parties;
    assert Alive(c, s, t);
    var n := Parties(c, s.info[t.obj].tag);
    var got := CollectedOf(s.mail.loc[t := Collected], t.obj);
    TokensAre(t.obj, n);
    forall u | u in got ensures u in TokensOf(t.obj, n) {
      assert Alive(c, s, u);
    }
    TokenCount(t.obj, n);
    SubsetCount(got, TokensOf(t.obj, n));
  }

  /** What the collector has of a message once `t` is counted in, and the tally that comes of it. */
  lemma CountedIn(c: Config, s: State, t: Token, ok: bool)
    requires Enlisted(c, s) && TallyOk(c, s, t.obj)
    requires t in s.mail.loc && s.mail.loc[t] != Collected && t in s.mail.acks && s.mail.acks[t] == ok
    ensures t.obj in s.info
    ensures var got := CollectedOf(s.mail.loc[t := Collected], t.obj);
            var n := Parties(c, s.info[t.obj].tag);
            var all := AllTrue(s.mail.acks, got);
            && t in got && got <= TokensOf(t.obj, n)
            && match Count(s.pending, t.obj, ok, n)
               case Wait(p) => p == s.pending[t.obj := PendingDiscard(|got|, all)] && |got| < n
               case Done(p, verdict) => p == s.pending - {t.obj} && (verdict <==> all) && got == TokensOf(t.obj, n)
  {
    hide TokensOf;
    hide Parties;
    hide CollectedOf;
    OneMore(s.mail.loc, s.mail.acks, t);
    OwnTokens(c, s, t);
  }

  lemma WaitKept(c: Config, s: State, ok: bool, t: Token, due: nat, p: map<Obj, PendingDiscard>)
    requires Inv(c, s) && (if ok then s.mail.successed else s.mail.failed) != [] && t == First(s.mail, ok)
    requires t.obj in s.info && due == Parties(c, s.info[t.obj].tag) && Count(s.pending, t.obj, ok, due) == Wait(p)
    ensures Inv(c, Took(s, ok).(pending := p))
  {
    hide Channels;
    hide AtForks;
    hide Registries;
    hide Messages;
    hide UsesOk;
    hide FinalOk;
    hide Taken;
    hide Count;
    var n := Took(s, ok).(pending := p);
    TookSends(c, s, ok);
    TakenPlace(s.mail, ok);
    CountedIn(c, s, t, ok);
    assert Sends(c, n) by { SendsApart(c, Took(s, ok), p); }
    assert Registries(c, n) && Messages(n) by { MailApart(c, s, n.mail); PendingApart(c, Took(s, ok), p); }
    assert Tallies(c, n) by {
      forall o ensures TallyOk(c, n, o) {
        if o != t.obj { TallyStands(c, s, n, o); }
      }
    }
    UsesStand(s, n);
  }

  lemma TakenPlace(m: Mail, ok: bool)
    requires (if ok then m.successed else m.failed) != []
    ensures Taken(m, ok).loc == m.loc[First(m, ok) := Collected] && Taken(m, ok).acks == m.acks
  {
  }

  lemma PendingApart(c: Config, s: State, p: map<Obj, PendingDiscard>)
    requires Registries(c, s) && Messages(s)
    ensures Registries(c, s.(pending := p)) && Messages(s.(pending := p))
  {
    var n := s.(pending := p);
    assert forall pc :: TagOf(n, pc) == TagOf(s, pc);
  }

  lemma SendsApart(c: Config, s: State, p: map<Obj, PendingDiscard>)
    requires Sends(c, s)
    ensures Sends(c, s.(pending := p))
  {
    var n := s.(pending := p);
    forall u ensures u in n.mail.loc <==> Alive(c, n, u) {
      assert u in s.mail.loc <==> Alive(c, s, u);
    }
  }

  // The last outcome of a message: all its sends are collected, so no fork still has it.

  ghost predicate AllIn(c: Config, s: State, o: Obj) {
    && o in s.info && o in s.stage && s.stage[o] == Sent
    && CollectedOf(s.mail.loc, o) == TokensOf(o, Parties(c, s.info[o].tag))
  }

  lemma NobodyHasIt(c: Config, s: State, o: Obj, f: nat)
    requires AllIn(c, s, o) && f < |s.forks|
    requires Pcs(c, s) && Holders(s.forks, s.stage) && AtForks(s.forks, s.mail.loc)
    ensures ObjOf(s.forks[f]) != Some(o)
  {
    hide Accept;
    var pc := s.forks[f];
    if ObjOf(pc) == Some(o) && Holding(pc) == None {
      assert PcOk(c, s.reg, s.info[o].tag, pc);
      var t := if pc.Sending? then Token(o, pc.j) else Token(o, 0);
      TokensAre(o, Parties(c, s.info[o].tag));
      assert t in CollectedOf(s.mail.loc, o);
      SentFrom(s.forks, s.mail.loc, f, t);
    }
  }

  lemma FinishRegistries(c: Config, s: State, o: Obj, verdict: bool)
    requires AllIn(c, s, o) && Registries(c, s) && Messages(s) && AtForks(s.forks, s.mail.loc)
    ensures Registries(c, Finish(s, o, Parties(c, s.info[o].tag), verdict))
  {
    hide Accept;
    hide Published;
    hide SpawnedOnce;
    hide Locks;
    hide PcOk;
    hide AtForks;
    hide Holding;
    hide ObjOf;
    hide Parties;
    hide CollectedOf;
    hide Queue;
    var n := Finish(s, o, Parties(c, s.info[o].tag), verdict);
    forall f | 0 <= f < |s.forks|
      ensures ObjOf(n.forks[f]).Some? ==> ObjOf(n.forks[f]).value in n.info
      ensures PcOk(c, n.reg, TagOf(n, n.forks[f]), n.forks[f])
    {
      NobodyHasIt(c, s, o, f);
      assert TagOf(n, n.forks[f]) == TagOf(s, s.forks[f]);
    }
  }

  lemma QueueForgets(q: seq<Obj>, stage: map<Obj, Stage>, o: Obj)
    requires Queue(q, stage) && o in stage && stage[o] == Sent
    ensures Queue(q, stage - {o})
  {
    forall x ensures x in q <==> x in stage - {o} && (stage - {o})[x] == Queued {
      assert x in q <==> x in stage && stage[x] == Queued;
    }
  }

  lemma HoldersForget(forks: seq<Pc>, stage: map<Obj, Stage>, o: Obj)
    requires Holders(forks, stage) && o in stage && stage[o] == Sent
    ensures Holders(forks, stage - {o})
  {
    hide Holding;
    assert forall f :: 0 <= f < |forks| && Holding(forks[f]).Some? ==> Holding(forks[f]).value != o;
  }

  lemma FinishMessages(c: Config, s: State, o: Obj, k: nat, verdict: bool)
    requires o in s.stage && s.stage[o] == Sent && o in s.info && Messages(s)
    ensures Messages(Finish(s, o, k, verdict))
  {
    hide Queue;
    hide Holders;
    hide AcksOf;
    hide BlockedOf;
    hide EndUse;
    hide TokensOf;
    QueueForgets(s.inChan, s.stage, o);
    HoldersForget(s.forks, s.stage, o);
  }

  lemma HoldsForgets(q: seq<Token>, loc: map<Token, Loc>, l: Loc, ts: set<Token>)
    requires Holds(q, loc, l) && forall t :: t in ts ==> t in loc && loc[t] != l
    ensures Holds(q, loc - ts, l)
  {
    forall u ensures u in q <==> IsAt(loc - ts, u, l) {
      assert u in q <==> IsAt(loc, u, l);
    }
  }

  lemma ChannelsForget(m: Mail, ts: set<Token>)
    requires Channels(m) && forall t :: t in ts ==> t in m.loc && m.loc[t] == Collected
    ensures Channels(m.(loc := m.loc - ts, acks := m.acks - ts))
  {
    hide Holds;
    forall k ensures Holds(Inbox(m, k), m.loc - ts, AtInbox(k)) {
      HoldsForgets(Inbox(m, k), m.loc, AtInbox(k), ts);
    }
    assert forall k :: Inbox(m.(loc := m.loc - ts, acks := m.acks - ts), k) == Inbox(m, k);
    HoldsForgets(m.successed, m.loc, AtSuccess, ts);
    HoldsForgets(m.failed, m.loc, AtFailed, ts);
    OutcomesForget(m.loc, m.acks, ts);
  }

  lemma OutcomesForget(loc: map<Token, Loc>, acks: map<Token, bool>, ts: set<Token>)
    requires Outcomes(loc, acks)
    ensures Outcomes(loc - ts, acks - ts)
  {
    forall u ensures u in acks - ts <==> IsReported(loc - ts, u) {
      assert u in acks <==> IsReported(loc, u);
    }
    assert forall u :: IsAt(loc - ts, u, AtSuccess) ==> IsAt(loc, u, AtSuccess);
    assert forall u :: IsAt(loc - ts, u, AtFailed) ==> IsAt(loc, u, AtFailed);
  }

  lemma ForksForget(forks: seq<Pc>, loc: map<Token, Loc>, ts: set<Token>)
    requires AtForks(forks, loc) && forall t :: t in ts ==> t in loc && loc[t] == Collected
    ensures AtForks(forks, loc - ts)
  {
    forall g: nat, u | g < |forks| ensures Remaining(forks[g], u) <==> IsAt(loc - ts, u, AtFork(g)) {
      assert Remaining(forks[g], u) <==> IsAt(loc, u, AtFork(g));
    }
  }

  lemma FinishSends(c: Config, s: State, o: Obj, verdict: bool)
    requires AllIn(c, s, o) && Sends(c, s)
    ensures Sends(c, Finish(s, o, Parties(c, s.info[o].tag), verdict))
  {
    hide Accept;
    hide Parties;
    hide AtForks;
    hide Channels;
    hide TokensOf;
    var k := Parties(c, s.info[o].tag);
    var n, ts := Finish(s, o, k, verdict), TokensOf(o, k);
    assert forall t :: t in ts ==> t in CollectedOf(s.mail.loc, o);
    TokensAre(o, k);
    ForksForget(s.forks, s.mail.loc, ts);
    ChannelsForget(s.mail, ts);
    BlockedApart(s.mail.(loc := s.mail.loc - ts, acks := s.mail.acks - ts), s.mail.blocked - ts);
    forall u ensures u in n.mail.loc <==> Alive(c, n, u) {
      assert u in s.mail.loc <==> Alive(c, s, u);
    }
  }

  lemma FinishTallies(c: Config, s: State, o: Obj, verdict: bool)
    requires AllIn(c, s, o) && o !in s.pending && (forall x :: x != o ==> TallyOk(c, s, x))
    ensures Tallies(c, Finish(s, o, Parties(c, s.info[o].tag), verdict))
  {
    hide Accept;
    hide TallyOk;
    hide TokensOf;
    hide Parties;
    var k := Parties(c, s.info[o].tag);
    var n, ts := Finish(s, o, k, verdict), TokensOf(o, k);
    TokensAre(o, k);
    forall x ensures TallyOk(c, n, x) {
      if x != o { TallyStands(c, s, n, x); }
      else { NothingTallied(c, n, o, s.mail.loc, ts); }
    }
  }

  lemma NothingTallied(c: Config, n: State, o: Obj, loc: map<Token, Loc>, ts: set<Token>)
    requires o !in n.pending && n.mail.loc == loc - ts && CollectedOf(loc, o) == ts
    ensures TallyOk(c, n, o)
  {
    forall t ensures t !in CollectedOf(n.mail.loc, o) {
      assert t in ts <==> t in CollectedOf(loc, o);
    }
    assert CollectedOf(n.mail.loc, o) == {};
  }

  lemma FinishVerdict(c: Config, s: State, o: Obj, verdict: bool)
    requires AllIn(c, s, o) && Outcomes(s.mail.loc, s.mail.acks) && Verdicts(c, s)
    requires verdict <==> AllTrue(s.mail.acks, TokensOf(o, Parties(c, s.info[o].tag)))
    ensures Verdicts(c, Finish(s, o, Parties(c, s.info[o].tag), verdict))
  {
    hide Accept;
    hide TokensOf;
    hide Parties;
    var k := Parties(c, s.info[o].tag);
    var acks := AcksOf(s.mail, o, k);
    TokensAre(o, k);
    forall j: nat | j < k ensures Token(o, j) in s.mail.acks {
      assert Token(o, j) in CollectedOf(s.mail.loc, o);
      assert IsReported(s.mail.loc, Token(o, j));
    }
    assert forall j :: j in acks <==> 0 <= j < k;
    if forall j :: j in acks ==> acks[j] {
      forall t | t in TokensOf(o, k) ensures t in s.mail.acks && s.mail.acks[t] {
        assert t == Token(o, t.slot) && t.slot in acks;
      }
    }
    assert FinalOk(c, Final(o, s.info[o], verdict, acks, BlockedOf(s.mail, o, k)));
  }

  lemma FinishUses(c: Config, s: State, o: Obj, k: nat, verdict: bool)
    requires UsesOk(s) && o in s.info
    ensures UsesOk(Finish(s, o, k, verdict))
  {
    hide AcksOf;
    hide BlockedOf;
    var n := Finish(s, o, k, verdict);
    forall u: nat | u < |n.uses| ensures UseOk(n, u, n.uses[u]) {
      assert UseOk(s, u, s.uses[u]);
    }
  }

  lemma DoneKept(c: Config, s: State, ok: bool, t: Token, due: nat, p: map<Obj, PendingDiscard>, verdict: bool)
    requires Inv(c, s) && (if ok then s.mail.successed else s.mail.failed) != [] && t == First(s.mail, ok)
    requires t.obj in s.info && due == Parties(c, s.info[t.obj].tag)
    requires Count(s.pending, t.obj, ok, due) == Done(p, verdict)
    ensures Inv(c, Finish(Took(s, ok).(pending := p), t.obj, due, verdict))
  {
    hide AtForks;
    hide Registries;
    hide Messages;
    hide Stages;
    hide UsesOk;
    hide FinalOk;
    hide Taken;
    hide Count;
    hide Finish;
    hide Holds;
    hide Parties;
    hide TokensOf;
    var m := Took(s, ok).(pending := p);
    TookSends(c, s, ok);
    TakenPlace(s.mail, ok);
    CountedIn(c, s, t, ok);
    SendsApart(c, Took(s, ok), p);
    MailApart(c, s, m.mail);
    PendingApart(c, Took(s, ok), p);
    assert AllIn(c, m, t.obj) by { assert Alive(c, s, t); }
    forall o ensures o != t.obj ==> TallyOk(c, m, o) {
      if o != t.obj { TallyStands(c, s, m, o); }
    }
    FinishRegistries(c, m, t.obj, verdict);
    FinishMessages(c, m, t.obj, due, verdict);
    FinishSends(c, m, t.obj, verdict);
    FinishTallies(c, m, t.obj, verdict);
    FinishVerdict(c, m, t.obj, verdict);
    UsesStand(s, m);
    FinishUses(c, m, t.obj, due, verdict);
    FinishPanics(m, t.obj, due, verdict);
  }

  lemma FinishPanics(s: State, o: Obj, k: nat, verdict: bool)
    requires o in s.info
    ensures Finish(s, o, k, verdict).panicked == s.panicked
  {
  }

  // ---- Every run ----

  lemma CollectingIs(s: State, ok: bool, n: nat)
    requires (if ok then s.mail.successed else s.mail.failed) != []
    requires var t := First(s.mail, ok);
      t.obj in s.info && s.info[t.obj].tag in s.reg.tag2NSender && s.reg.tag2NSender[s.info[t.obj].tag] == n
    ensures var t := First(s.mail, ok);
      Collecting(s, ok) == match Count(s.pending, t.obj, ok, n)
        case Wait(p) => Took(s, ok).(pending := p)
        case Done(p, verdict) => Finish(Took(s, ok).(pending := p), t.obj, n, verdict)
  {
    hide Finish;
    hide Count;
  }

  lemma CollectKept(c: Config, s: State, ok: bool)
    requires Inv(c, s)
    ensures Inv(c, Collecting(s, ok))
  {
    hide Registries;
    hide Finish;
    hide Count;
    hide Tallies;
    hide UsesOk;
    if (if ok then s.mail.successed else s.mail.failed) != [] {
      var t := First(s.mail, ok);
      TookSends(c, s, ok);
      assert Alive(c, s, t);
      PublishedTag(c, s, t.obj);
      var due := Parties(c, s.info[t.obj].tag);
      match Count(s.pending, t.obj, ok, due)
      case Wait(p) => WaitKept(c, s, ok, t, due, p);
      case Done(p, verdict) => DoneKept(c, s, ok, t, due, p, verdict);
    }
  }

  lemma PublishedTag(c: Config, s: State, o: Obj)
    requires Registries(c, s) && Messages(s) && o in s.info && o in s.stage && s.stage[o] == Sent
    ensures s.info[o].tag in s.reg.tag2NSender && s.reg.tag2NSender[s.info[o].tag] == Parties(c, s.info[o].tag)
  {
  }

  /** Whatever happens next, the invariant stands. */
  lemma NextKept(c: Config, s: State, a: Action)
    requires Inv(c, s)
    ensures Inv(c, Next(c, s, a))
  {
    hide Inv;
    match a
    case Submit(o, tag, id, extIds) => if o !in s.info { SubmitKept(c, s, o, tag, id, extIds); }
    case Receive(f) => if f < |s.forks| && s.forks[f] == Idle && s.inChan != [] { ReceiveKept(c, s, f); }
    case Fork(f, full) => if f < |s.forks| { ForkKept(c, s, f, full); }
    case Report(k, i, ok) => if i < |Inbox(s.mail, k)| { ReportKept(c, s, k, i, ok); }
    case Collect(ok) => CollectKept(c, s, ok);
  }

  lemma InitInv(c: Config, nfork: nat)
    ensures Inv(c, Init(nfork))
  {
    var s := Init(nfork);
    assert Registries(c, s);
    assert forall o :: CollectedOf(s.mail.loc, o) == {};
  }

  lemma {:induction false} Always(c: Config, nfork: nat, acts: seq<Action>)
    ensures Inv(c, Run(c, nfork, acts))
    decreases |acts|
  {
    hide Inv;
    hide Next;
    hide Init;
    if acts == [] {
      InitInv(c, nfork);
    } else {
      Always(c, nfork, acts[..|acts| - 1]);
      NextKept(c, Run(c, nfork, acts[..|acts| - 1]), acts[|acts| - 1]);
    }
  }
}
