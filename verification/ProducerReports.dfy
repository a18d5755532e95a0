/** What the verdicts of the producer rest on: the sends that its forks made and the reports that its senders gave,
    as the actions of the run have them. */
module ProducerReports {
  import opened Options

  import opened Producer
  import opened ProducerAnswers
  import opened ProducerInvariant
  import opened ProducerProof
  import opened ProducerSteps
  import opened ProducerTheorems

  /** A fork offers a use of an object to a sender, whose inbox may be full; a sender reports on it. `slot` is the
      place of the sender in the list of the tag. */
  datatype Note =
    | Offered(use: nat, slot: nat, sender: Sender, full: bool)
    | Told(use: nat, slot: nat, sender: Sender, ok: bool)

  /** What an action is, read off the action and the message it meets. */
  function NotesOf(s: State, a: Action): (h: seq<Note>)
    ensures |h| <= 1
  {
    match a
    case Fork(f, full) =>
      if f < |s.forks| && s.forks[f].Sending? && s.forks[f].j < |s.forks[f].acc| && s.forks[f].o in s.info
      then [Offered(s.info[s.forks[f].o].use, s.forks[f].j, s.forks[f].acc[s.forks[f].j], full)] else []
    case Report(k, i, ok) =>
      if i < |Inbox(s.mail, k)| && Inbox(s.mail, k)[i].obj in s.info
      then [Told(s.info[Inbox(s.mail, k)[i].obj].use, Inbox(s.mail, k)[i].slot, k, ok)] else []
    case _ => []
  }

  /** All the offers and reports of a run, in order. */
  function History(c: Config, nfork: nat, acts: seq<Action>): seq<Note> {
    if acts == [] then []
    else
      var before := acts[..|acts| - 1];
      History(c, nfork, before) + NotesOf(Run(c, nfork, before), acts[|acts| - 1])
  }

  /** Those about one send. */
  function About(h: seq<Note>, u: nat, k: nat): seq<Note> {
    if h == [] then []
    else
      var last := h[|h| - 1];
      About(h[..|h| - 1], u, k) + if last.use == u && last.slot == k then [last] else []
  }

  lemma AboutOne(h: seq<Note>, more: seq<Note>, u: nat, k: nat)
    requires |more| <= 1
    ensures About(h + more, u, k)
         == About(h, u, k) + if more != [] && more[0].use == u && more[0].slot == k then more else []
  {
    if more == [] {
      assert h + more == h;
    } else {
      assert (h + more)[..|h|] == h && more == [more[0]];
    }
  }

  predicate Offers(loc: Option<Loc>) {
    loc.Some? && loc.value.AtInbox?
  }

  /** The notes that there must be about a send, by where it is and what is booked of it. */
  function Due(c: Config, tag: Tag, u: nat, k: nat, loc: Option<Loc>, ack: Option<bool>, blocked: bool): seq<Note> {
    var acc := Accept(c, c.senders, tag);
    if k >= |acc| then []
    else
      match ack
      case Some(ok) =>
        if blocked then [Offered(u, k, acc[k], true)] else [Offered(u, k, acc[k], false), Told(u, k, acc[k], ok)]
      case None => if Offers(loc) then [Offered(u, k, acc[k], false)] else []
  }

  function DueNow(c: Config, s: State, u: nat, k: nat): seq<Note> {
    if u >= |s.uses| then []
    else
      var use := s.uses[u];
      match use.ended
      case None =>
        var t := Token(use.obj, k);
        Due(c, use.info.tag, u, k, Get(s.mail.loc, t), Get(s.mail.acks, t), t in s.mail.blocked)
      case Some(i) =>
        if i < |s.finals|
        then Due(c, use.info.tag, u, k, None, Get(s.finals[i].acks, k), k in s.finals[i].blocked) else []
  }

  /** Nothing is booked that has not been done. */
  ghost predicate Honest(c: Config, s: State, h: seq<Note>) {
    forall u, k :: About(h, u, k) == DueNow(c, s, u, k)
  }

  ghost predicate Sound(c: Config, s: State) {
    Inv(c, s) && RightInboxes(c, s) && AllAnswered(c, s)
  }

  /** The object of a use that has not ended carries just that use. */
  lemma AliveUse(s: State, u: nat)
    requires UsesOk(s) && u < |s.uses| && s.uses[u].ended == None
    ensures s.uses[u].obj in s.info && s.info[s.uses[u].obj] == s.uses[u].info && s.uses[u].info.use == u
  {
    assert UseOk(s, u, s.uses[u]);
  }

  /** A step that leaves the books of all sends alone. */
  lemma SameDue(c: Config, s: State, n: State, u: nat, k: nat)
    requires n.uses == s.uses && n.finals == s.finals
    requires u < |s.uses| && s.uses[u].ended == None ==>
               var t := Token(s.uses[u].obj, k);
               && Get(n.mail.acks, t) == Get(s.mail.acks, t) && (t in n.mail.blocked <==> t in s.mail.blocked)
               && (Get(s.mail.acks, t) == None ==>
                     (Offers(Get(n.mail.loc, t)) <==> Offers(Get(s.mail.loc, t))))
    ensures DueNow(c, n, u, k) == DueNow(c, s, u, k)
  {
  }

  lemma SubmitDue(c: Config, s: State, o: Obj, tag: Tag, id: int, extIds: seq<int>, u: nat, k: nat)
    requires Sound(c, s) && o !in s.info
    ensures DueNow(c, Submitted(s, o, tag, id, extIds), u, k) == DueNow(c, s, u, k)
  {
    var n := Submitted(s, o, tag, id, extIds);
    if u == |s.uses| {
      var t := Token(o, k);
      assert t in s.mail.loc <==> Alive(c, s, t);
      assert t in s.mail.acks <==> IsReported(s.mail.loc, t);
      assert n.uses[u] == Use(o, Info(|s.uses|, tag, id, extIds), None);
    } else if u < |s.uses| {
      assert n.uses[u] == s.uses[u];
    }
  }

  /** The step of a fork at a send. */
  lemma SendingDue(c: Config, s: State, f: nat, full: bool, u: nat, k: nat)
    requires Sound(c, s) && f < |s.forks| && s.forks[f].Sending?
    ensures var h := NotesOf(s, Fork(f, full)); var n := ForkStep(c, s, f, full);
      DueNow(c, n, u, k) == DueNow(c, s, u, k) + if h != [] && h[0].use == u && h[0].slot == k then h else []
  {
    hide *;
    var pc, n := s.forks[f], ForkStep(c, s, f, full);
    SoundParts(c, s);
    SendingKnows(c, s, f);
    NotYetSent(c, s, f);
    SendAtFork(c, s, f);
    var t := Token(pc.o, pc.j);
    AliveToken(c, s, t, u);
    SendingBooks(c, s, f, full);
    OfferNote(s, f, full);
    if u == s.info[pc.o].use && k == pc.j {
      OfferedDue(c, s, n, u, k, full);
    } else {
      OtherSend(c, s, n, t, c.discardWhenBlocked(pc.acc[pc.j]), u, k);
    }
  }

  lemma SoundParts(c: Config, s: State)
    requires Sound(c, s)
    ensures Inv(c, s) && Sends(c, s) && Registries(c, s) && RightInboxes(c, s)
  {
  }

  /** The books of a send stay as they are when those of another are changed. */
  lemma OtherSend(c: Config, s: State, n: State, t: Token, ok: bool, u: nat, k: nat)
    requires n.uses == s.uses && n.finals == s.finals
    requires n.mail.acks == s.mail.acks || n.mail.acks == s.mail.acks[t := ok]
    requires n.mail.blocked == s.mail.blocked || n.mail.blocked == s.mail.blocked + {t}
    requires forall x :: x != t ==> Get(n.mail.loc, x) == Get(s.mail.loc, x)
    requires u < |s.uses| && s.uses[u].ended == None ==> t != Token(s.uses[u].obj, k)
    ensures DueNow(c, n, u, k) == DueNow(c, s, u, k)
  {
    hide *;
    if u < |s.uses| && s.uses[u].ended == None {
      SameGet(s.mail.acks, n.mail.acks, t, ok, Token(s.uses[u].obj, k));
    }
    SameDue(c, s, n, u, k);
  }

  lemma SameGet(m: map<Token, bool>, n: map<Token, bool>, t: Token, ok: bool, x: Token)
    requires n == m || n == m[t := ok]
    ensures x != t ==> Get(n, x) == Get(m, x)
  {
  }

  lemma NotYetSent(c: Config, s: State, f: nat)
    requires f < |s.forks| && Sends(c, s) && s.forks[f].Sending? && s.forks[f].j < |s.forks[f].acc|
    ensures Token(s.forks[f].o, s.forks[f].j) !in s.mail.acks
  {
    hide Sends;
    NotYet(c, s, f);
  }

  lemma OfferNote(s: State, f: nat, full: bool)
    requires f < |s.forks| && s.forks[f].Sending? && s.forks[f].j < |s.forks[f].acc| && s.forks[f].o in s.info
    ensures var pc := s.forks[f];
      NotesOf(s, Fork(f, full)) == [Offered(s.info[pc.o].use, pc.j, pc.acc[pc.j], full)]
  {
  }

  /** A send that has not been made, and then is. */
  lemma OfferedDue(c: Config, s: State, n: State, u: nat, k: nat, full: bool)
    requires u < |s.uses| && s.uses[u].ended == None && n.uses == s.uses
    requires var t, acc := Token(s.uses[u].obj, k), Accept(c, c.senders, s.uses[u].info.tag);
      && t in s.mail.loc && s.mail.loc[t].AtFork? && t !in s.mail.acks && k < |acc|
      && n.mail.acks == (if full then s.mail.acks[t := c.discardWhenBlocked(acc[k])] else s.mail.acks)
      && (full ==> t in n.mail.blocked) && (!full ==> t in n.mail.loc && n.mail.loc[t].AtInbox?)
    ensures DueNow(c, n, u, k)
         == DueNow(c, s, u, k) + [Offered(u, k, Accept(c, c.senders, s.uses[u].info.tag)[k], full)]
  {
    hide Accept;
  }

  lemma SendingKnows(c: Config, s: State, f: nat)
    requires Registries(c, s) && f < |s.forks| && s.forks[f].Sending?
    ensures var pc := s.forks[f];
      && pc.o in s.info && pc.acc == Accept(c, c.senders, s.info[pc.o].tag) && pc.j < |pc.acc|
  {
    assert PcOk(c, s.reg, TagOf(s, s.forks[f]), s.forks[f]);
  }

  lemma SendingBooks(c: Config, s: State, f: nat, full: bool)
    requires f < |s.forks| && s.forks[f].Sending? && s.forks[f].j < |s.forks[f].acc|
    ensures var n, pc := ForkStep(c, s, f, full), s.forks[f]; var t := Token(pc.o, pc.j);
      && n.uses == s.uses && n.finals == s.finals
      && n.mail.acks == (if full then s.mail.acks[t := c.discardWhenBlocked(pc.acc[pc.j])] else s.mail.acks)
      && n.mail.blocked == (if full then s.mail.blocked + {t} else s.mail.blocked)
      && (forall x :: x != t ==> Get(n.mail.loc, x) == Get(s.mail.loc, x))
      && (!full ==> t in n.mail.loc && n.mail.loc[t].AtInbox?)
  {
  }

  lemma SendAtFork(c: Config, s: State, f: nat)
    requires f < |s.forks| && Sends(c, s) && s.forks[f].Sending? && s.forks[f].j < |s.forks[f].acc|
    ensures var t := Token(s.forks[f].o, s.forks[f].j); t in s.mail.loc && s.mail.loc[t] == AtFork(f)
  {
    hide Channels;
    var t := Token(s.forks[f].o, s.forks[f].j);
    assert Remaining(s.forks[f], t) <==> IsAt(s.mail.loc, t, AtFork(f));
  }

  lemma NotBlockedYet(c: Config, s: State, t: Token)
    requires AllAnswered(c, s) && t !in s.mail.acks
    ensures t !in s.mail.blocked
  {
  }

  /** The other steps of a fork do not touch the books of a send that has a sender. */
  lemma ForkDue(c: Config, s: State, f: nat, full: bool, u: nat, k: nat)
    requires Sound(c, s) && f < |s.forks| && !s.forks[f].Sending?
    ensures DueNow(c, ForkStep(c, s, f, full), u, k) == DueNow(c, s, u, k)
  {
    hide Registries;
    hide RightInboxes;
    hide AllAnswered;
    hide Tallies;
    hide Verdicts;
    hide Messages;
    hide NextReg;
    hide NextPc;
    hide DueNow;
    hide Enlist;
    var pc, n := s.forks[f], ForkStep(c, s, f, full);
    if u < |s.uses| && s.uses[u].ended == None {
      AliveUse(s, u);
      hide UsesOk;
      var t := Token(s.uses[u].obj, k);
      if SendOf(pc).Some? {
        SingleDue(c, s, f, full, u, k);
      } else {
        if Holding(pc).Some? { EnlistedDue(c, s, f, t); }
        SameDue(c, s, n, u, k);
      }
    } else {
      SameDue(c, s, n, u, k);
    }
  }

  /** Enlisting a message leaves its sends without an outcome. */
  lemma EnlistedDue(c: Config, s: State, f: nat, t: Token)
    requires Sound(c, s) && f < |s.forks| && Holding(s.forks[f]).Some?
    ensures var o := Holding(s.forks[f]).value;
      forall n :: var m := Enlist(s.mail, f, o, n);
        && (Offers(Get(m.loc, t)) <==> Offers(Get(s.mail.loc, t)))
        && m.acks == s.mail.acks && m.blocked == s.mail.blocked
  {
    hide Registries;
    hide Tallies;
    hide Verdicts;
    hide UsesOk;
    hide Channels;
    hide AtForks;
    hide RightInboxes;
    hide AllAnswered;
    var o := Holding(s.forks[f]).value;
    assert o in s.stage && s.stage[o] == Held(f);
    assert t in s.mail.loc <==> Alive(c, s, t);
    assert t.obj == o ==> t !in s.mail.loc;
    forall n ensures Offers(Get(Enlist(s.mail, f, o, n).loc, t)) <==> Offers(Get(s.mail.loc, t)) {
      assert t in TokensOf(o, n) ==> t.obj == o;
    }
  }

  /** A message whose tag no sender supports has no sends to account for. */
  lemma SingleDue(c: Config, s: State, f: nat, full: bool, u: nat, k: nat)
    requires Sound(c, s) && f < |s.forks| && (s.forks[f].SendUnsupported? || s.forks[f].PutUnsupported?)
    requires u < |s.uses| && s.uses[u].ended == None && s.uses[u].obj in s.info
    requires s.info[s.uses[u].obj] == s.uses[u].info
    ensures DueNow(c, ForkStep(c, s, f, full), u, k) == DueNow(c, s, u, k)
  {
    hide Sends;
    hide Ends;
    hide Messages;
    hide RightInboxes;
    hide AllAnswered;
    hide Published;
    hide SpawnedOnce;
    hide Locks;
    hide Accept;
    var pc := s.forks[f];
    assert PcOk(c, s.reg, TagOf(s, pc), pc) && pc.o in s.info;
    if s.uses[u].obj != pc.o { SameDue(c, s, ForkStep(c, s, f, full), u, k); }
  }

  lemma ReportedBooks(m: Mail, q: Sender, i: nat, ok: bool)
    requires i < |Inbox(m, q)|
    ensures var n, t := Reported(m, q, i, ok), Inbox(m, q)[i];
      && n.acks == m.acks[t := ok] && n.blocked == m.blocked
      && n.loc == m.loc[t := if ok then AtSuccess else AtFailed]
  {
  }

  /** A report is booked as it was given, of the sender that the copy was for. */
  lemma ReportDue(c: Config, s: State, q: Sender, i: nat, ok: bool, u: nat, k: nat)
    requires Sound(c, s) && i < |Inbox(s.mail, q)|
    ensures var h := NotesOf(s, Report(q, i, ok)); var n := s.(mail := Reported(s.mail, q, i, ok));
      DueNow(c, n, u, k) == DueNow(c, s, u, k) + if h != [] && h[0].use == u && h[0].slot == k then h else []
  {
    hide *;
    SoundParts(c, s);
    var t, n := Inbox(s.mail, q)[i], s.(mail := Reported(s.mail, q, i, ok));
    InInbox(c, s, q, i);
    ReportedBooks(s.mail, q, i, ok);
    AtInboxNow(c, s, q, i);
    IsFor(c, s, t, q);
    AliveToken(c, s, t, u);
    ReportNote(s, q, i, ok);
    if u == s.info[t.obj].use && k == t.slot {
      AtInboxOffers(s.mail.loc, t, q);
      BookedDue(c, s, n, u, k, ok);
    } else {
      if u < |s.uses| && s.uses[u].ended == None { OtherToken(s, n, t, u, k, ok); }
      SameDue(c, s, n, u, k);
    }
  }

  lemma IsFor(c: Config, s: State, t: Token, q: Sender)
    requires ForSender(c, s, t, q)
    ensures t.obj in s.info && t.slot < |Accept(c, c.senders, s.info[t.obj].tag)|
    ensures Accept(c, c.senders, s.info[t.obj].tag)[t.slot] == q
  {
  }

  lemma ReportNote(s: State, q: Sender, i: nat, ok: bool)
    requires i < |Inbox(s.mail, q)| && Inbox(s.mail, q)[i].obj in s.info
    ensures NotesOf(s, Report(q, i, ok)) == [Told(s.info[Inbox(s.mail, q)[i].obj].use, Inbox(s.mail, q)[i].slot, q, ok)]
  {
  }

  lemma AtInboxOffers(loc: map<Token, Loc>, t: Token, q: Sender)
    requires t in loc && loc[t] == AtInbox(q)
    ensures Offers(Get(loc, t))
  {
  }

  /** The outcome of one send is not that of another. */
  lemma OtherToken(s: State, n: State, t: Token, u: nat, k: nat, ok: bool)
    requires n.mail.acks == s.mail.acks[t := ok] && n.mail.blocked == s.mail.blocked
    requires n.mail.loc == s.mail.loc[t := if ok then AtSuccess else AtFailed]
    requires u < |s.uses| && Token(s.uses[u].obj, k) != t
    ensures var x := Token(s.uses[u].obj, k);
      && Get(n.mail.acks, x) == Get(s.mail.acks, x) && (x in n.mail.blocked <==> x in s.mail.blocked)
      && Get(n.mail.loc, x) == Get(s.mail.loc, x)
  {
  }

  /** A send without an outcome belongs to the use that its object is in, and to no other. */
  lemma AliveToken(c: Config, s: State, t: Token, u: nat)
    requires Sound(c, s) && t.obj in s.info && t !in s.mail.acks
    ensures t !in s.mail.blocked
    ensures s.info[t.obj].use < |s.uses| && s.uses[s.info[t.obj].use] == Use(t.obj, s.info[t.obj], None)
    ensures u < |s.uses| && s.uses[u].ended == None && s.uses[u].obj == t.obj ==> u == s.info[t.obj].use
  {
    NotBlockedYet(c, s, t);
    hide Registries;
    hide Messages;
    hide Sends;
    hide Tallies;
    hide Verdicts;
    hide RightInboxes;
    hide AllAnswered;
    UseOf(s, t.obj);
    if u < |s.uses| && s.uses[u].ended == None { AliveUse(s, u); }
  }

  /** A send that waits at its sender, and then has its outcome booked. */
  lemma BookedDue(c: Config, s: State, n: State, u: nat, k: nat, ok: bool)
    requires u < |s.uses| && s.uses[u].ended == None && n.uses == s.uses
    requires var t := Token(s.uses[u].obj, k);
      && t !in s.mail.acks && Offers(Get(s.mail.loc, t)) && k < |Accept(c, c.senders, s.uses[u].info.tag)|
      && n.mail.acks == s.mail.acks[t := ok] && t !in n.mail.blocked
    ensures DueNow(c, n, u, k)
         == DueNow(c, s, u, k) + [Told(u, k, Accept(c, c.senders, s.uses[u].info.tag)[k], ok)]
  {
    hide Accept;
  }

  lemma UseOf(s: State, o: Obj)
    requires UsesOk(s) && o in s.info
    ensures s.info[o].use < |s.uses| && s.uses[s.info[o].use] == Use(o, s.info[o], None)
  {
  }

  lemma AtInboxNow(c: Config, s: State, q: Sender, i: nat)
    requires Sound(c, s) && i < |Inbox(s.mail, q)|
    ensures var t := Inbox(s.mail, q)[i]; t in s.mail.loc && s.mail.loc[t] == AtInbox(q)
  {
    hide Registries;
    hide Messages;
    hide Ends;
    hide AtForks;
    hide Enlisted;
    hide RightInboxes;
    hide AllAnswered;
    var t := Inbox(s.mail, q)[i];
    assert Holds(Inbox(s.mail, q), s.mail.loc, AtInbox(q)) && t in Inbox(s.mail, q);
    assert IsAt(s.mail.loc, t, AtInbox(q));
  }

  /** The collector moves outcomes to counts and to finals, as they are. */
  lemma CollectDue(c: Config, s: State, ok: bool, u: nat, k: nat)
    requires Sound(c, s)
    ensures DueNow(c, Collecting(s, ok), u, k) == DueNow(c, s, u, k)
  {
    hide Registries;
    hide Finish;
    hide Count;
    hide UsesOk;
    hide Parties;
    hide TokensOf;
    hide AtForks;
    hide Holds;
    hide AllAnswered;
    hide RightInboxes;
    hide Taken;
    hide Tallies;
    hide DueNow;
    if (if ok then s.mail.successed else s.mail.failed) != [] {
      var t := First(s.mail, ok);
      TookSends(c, s, ok);
      assert Alive(c, s, t) && TallyOk(c, s, t.obj) by { TallyHolds(c, s, t.obj); }
      PublishedTag(c, s, t.obj);
      var due := Parties(c, s.info[t.obj].tag);
      CollectingIs(s, ok, due);
      hide Collecting;
      CountedIn(c, s, t, ok);
      match Count(s.pending, t.obj, ok, due)
      case Wait(p) => TookDue(c, s, ok, p, u, k);
      case Done(p, verdict) =>
        TookDue(c, s, ok, p, u, k);
        AllIncluded(c, s, t, due);
        var mid := Took(s, ok).(pending := p);
        TookBooks(s, ok);
        assert UsesOk(mid) by { TookUses(s, ok, p); }
        FinishDue(c, mid, t.obj, due, verdict, u, k);
    }
  }

  lemma TookBooks(s: State, ok: bool)
    requires (if ok then s.mail.successed else s.mail.failed) != []
    ensures Took(s, ok).mail.acks == s.mail.acks && Took(s, ok).mail.blocked == s.mail.blocked
    ensures Took(s, ok).info == s.info && Took(s, ok).uses == s.uses && Took(s, ok).finals == s.finals
    ensures Took(s, ok).mail.loc == s.mail.loc[First(s.mail, ok) := Collected]
  {
  }

  lemma TookUses(s: State, ok: bool, p: map<Obj, PendingDiscard>)
    requires (if ok then s.mail.successed else s.mail.failed) != [] && UsesOk(s)
    ensures UsesOk(Took(s, ok).(pending := p))
  {
    hide Taken;
    UsesStand(s, Took(s, ok).(pending := p));
  }

  lemma TookDue(c: Config, s: State, ok: bool, p: map<Obj, PendingDiscard>, u: nat, k: nat)
    requires Sends(c, s) && (if ok then s.mail.successed else s.mail.failed) != []
    ensures DueNow(c, Took(s, ok).(pending := p), u, k) == DueNow(c, s, u, k)
  {
    TookSends(c, s, ok);
    TookBooks(s, ok);
    hide Sends;
    hide Taken;
    hide Took;
    SameDue(c, s, Took(s, ok).(pending := p), u, k);
  }

  lemma FinishDue(c: Config, s: State, o: Obj, n: nat, verdict: bool, u: nat, k: nat)
    requires o in s.info && UsesOk(s) && n == Parties(c, s.info[o].tag)
    requires forall t :: t in TokensOf(o, n) ==> t in s.mail.acks
    ensures DueNow(c, Finish(s, o, n, verdict), u, k) == DueNow(c, s, u, k)
  {
    var f := Finish(s, o, n, verdict);
    UseOf(s, o);
    TokensAre(o, n);
    if u < |s.uses| {
      match s.uses[u].ended
      case None =>
        AliveUse(s, u);
        hide UsesOk;
        hide TokensOf;
        var t := Token(s.uses[u].obj, k);
        assert t in TokensOf(o, n) ==> t.obj == o;
        if s.uses[u].obj == o {
          assert u == s.info[o].use && f.uses[u].ended == Some(|s.finals|);
          assert f.finals[|s.finals|].acks == AcksOf(s.mail, o, n);
          assert k < |Accept(c, c.senders, s.info[o].tag)| ==> k < n && t in TokensOf(o, n);
        }
      case Some(i) =>
        assert UseOk(s, u, s.uses[u]);
        assert u != s.info[o].use;
    }
  }

  lemma NextDue(c: Config, s: State, a: Action, u: nat, k: nat)
    requires Sound(c, s)
    ensures var h := NotesOf(s, a);
      DueNow(c, Next(c, s, a), u, k)
      == DueNow(c, s, u, k) + if h != [] && h[0].use == u && h[0].slot == k then h else []
  {
    assert !s.panicked by {
      hide Registries;
      hide Messages;
      hide Sends;
      hide Tallies;
    }
    hide Sound;
    hide DueNow;
    hide ForkStep;
    hide Submitted;
    hide Collecting;
    hide Reported;
    match a
    case Submit(o, tag, id, extIds) => if o !in s.info { SubmitDue(c, s, o, tag, id, extIds, u, k); }
    case Receive(f) =>
      if f < |s.forks| && s.forks[f] == Idle && s.inChan != [] { SameDue(c, s, Received(s, f), u, k); }
    case Fork(f, full) =>
      if f < |s.forks| {
        if s.forks[f].Sending? { SendingDue(c, s, f, full, u, k); } else { ForkDue(c, s, f, full, u, k); }
      }
    case Report(q, i, ok) => if i < |Inbox(s.mail, q)| { ReportDue(c, s, q, i, ok, u, k); }
    case Collect(ok) => CollectDue(c, s, ok, u, k);
  }

  lemma AlwaysSound(c: Config, nfork: nat, acts: seq<Action>)
    ensures Sound(c, Run(c, nfork, acts))
  {
    hide Inv;
    hide RightInboxes;
    hide AllAnswered;
    hide Run;
    Always(c, nfork, acts);
    CopiesReachTheirSenders(c, nfork, acts);
    AnsweredForRightly(c, nfork, acts);
  }

  lemma {:induction false} AlwaysHonest(c: Config, nfork: nat, acts: seq<Action>)
    ensures Honest(c, Run(c, nfork, acts), History(c, nfork, acts))
    decreases |acts|
  {
    hide Sound;
    hide Next;
    hide NotesOf;
    hide DueNow;
    if acts == [] {
      NothingDue(c, nfork);
    } else {
      var before, a := acts[..|acts| - 1], acts[|acts| - 1];
      AlwaysHonest(c, nfork, before);
      AlwaysSound(c, nfork, before);
      var s := Run(c, nfork, before);
      forall u, k ensures About(History(c, nfork, acts), u, k) == DueNow(c, Run(c, nfork, acts), u, k) {
        AboutOne(History(c, nfork, before), NotesOf(s, a), u, k);
        NextDue(c, s, a, u, k);
      }
    }
  }

  lemma NothingDue(c: Config, nfork: nat)
    ensures forall u, k :: DueNow(c, Init(nfork), u, k) == [] == About([], u, k)
  {
  }
}
