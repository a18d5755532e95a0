/** The verdicts of the producer in terms of what goes in and what comes back: the messages submitted, the sends that
    found an inbox full, and the reports of the senders (producer.go:150-183, 220-238). */
module ProducerVerdicts {
  import opened Options

  import opened Producer
  import opened ProducerAnswers
  import opened ProducerInvariant
  import opened ProducerProof
  import opened ProducerReports
  import opened ProducerSteps
  import opened ProducerTheorems

  // ---- The list of a tag ----

  /** The list of a tag is built sender by sender: one that supports the tag is added at the end, another is not. */
  lemma {:induction false} AcceptJoined(c: Config, a: seq<Sender>, b: seq<Sender>, tag: Tag)
    ensures Accept(c, a + b, tag) == Accept(c, a, tag) + Accept(c, b, tag)
    decreases |b|
  {
    if b == [] {
      assert a + b == a;
    } else {
      var front := b[..|b| - 1];
      assert (a + b)[..|a + b| - 1] == a + front;
      AcceptJoined(c, a, front, tag);
    }
  }

  /** It holds exactly the senders that support the tag, as often as they are configured, and in that order. */
  lemma {:induction false} AcceptIs(c: Config, ss: seq<Sender>, tag: Tag)
    ensures forall k :: k in Accept(c, ss, tag) <==> k in ss && c.supports(k, tag)
    ensures forall k :: multiset(Accept(c, ss, tag))[k] == if c.supports(k, tag) then multiset(ss)[k] else 0
    decreases |ss|
  {
    if ss != [] {
      AcceptIs(c, ss[..|ss| - 1], tag);
      assert ss == ss[..|ss| - 1] + [ss[|ss| - 1]];
    }
  }

  lemma AcceptAt(c: Config, ss: seq<Sender>, i: nat, tag: Tag)
    requires i < |ss| && c.supports(ss[i], tag)
    ensures Accept(c, ss[..i], tag) + [ss[i]] <= Accept(c, ss, tag)
  {
    assert ss[..i + 1][..i] == ss[..i] && ss == ss[..i + 1] + ss[i + 1..];
    AcceptJoined(c, ss[..i + 1], ss[i + 1..], tag);
  }

  // ---- What was submitted ----

  /** The messages that come in during a run, in order; one whose object is inside already is not let in. */
  function Submits(c: Config, nfork: nat, acts: seq<Action>): seq<Action> {
    if acts == [] then []
    else
      var before, a := acts[..|acts| - 1], acts[|acts| - 1];
      Submits(c, nfork, before)
      + if a.Submit? && a.o !in Run(c, nfork, before).info && !Run(c, nfork, before).panicked then [a] else []
  }

  /** The uses of objects are the submitted messages, as they were submitted. */
  ghost predicate SameUses(uses: seq<Use>, subs: seq<Action>) {
    && |uses| == |subs|
    && forall u :: 0 <= u < |uses| ==>
         && subs[u].Submit? && uses[u].obj == subs[u].o
         && uses[u].info == Info(u, subs[u].tag, subs[u].id, subs[u].extIds)
  }

  lemma ForkUses(c: Config, s: State, f: nat, full: bool)
    requires f < |s.forks|
    ensures ForkStep(c, s, f, full).uses == s.uses
  {
    hide NextPc;
    hide NextReg;
    hide NextMail;
    hide Enlist;
  }

  lemma CollectUses(s: State, ok: bool)
    ensures var n := Collecting(s, ok).uses;
      && |n| == |s.uses|
      && forall u :: 0 <= u < |n| ==> n[u].obj == s.uses[u].obj && n[u].info == s.uses[u].info
  {
    hide AcksOf;
    hide BlockedOf;
    hide TokensOf;
    hide Count;
  }

  /** A step adds a use just for a message that it lets in. */
  lemma StepUses(c: Config, s: State, a: Action)
    ensures var n := Next(c, s, a);
      if a.Submit? && a.o !in s.info && !s.panicked
      then n.uses == s.uses + [Use(a.o, Info(|s.uses|, a.tag, a.id, a.extIds), None)]
      else |n.uses| == |s.uses|
           && forall u :: 0 <= u < |s.uses| ==> n.uses[u].obj == s.uses[u].obj && n.uses[u].info == s.uses[u].info
  {
    hide ForkStep;
    hide Collecting;
    hide Reported;
    match a
    case Fork(f, full) => if f < |s.forks| { ForkUses(c, s, f, full); }
    case Collect(ok) => CollectUses(s, ok);
    case _ =>
  }

  lemma {:induction false} UsesAreSubmits(c: Config, nfork: nat, acts: seq<Action>)
    ensures SameUses(Run(c, nfork, acts).uses, Submits(c, nfork, acts))
    decreases |acts|
  {
    hide Next;
    if acts != [] {
      var before := acts[..|acts| - 1];
      UsesAreSubmits(c, nfork, before);
      StepUses(c, Run(c, nfork, before), acts[|acts| - 1]);
    }
  }

  // ---- The notes are actions ----

  /** A copy of the message that is in its use `u`, for the sender at place `k`. */
  predicate IsSend(s: State, t: Token, u: nat, k: nat) {
    t.obj in s.info && s.info[t.obj].use == u && t.slot == k
  }

  /** A fork that is about to send its message, in use `u`, to the sender `q` at place `k`. */
  predicate MakesSend(s: State, pc: Pc, u: nat, k: nat, q: Sender) {
    pc.Sending? && pc.j == k && k < |pc.acc| && pc.acc[k] == q && pc.o in s.info && s.info[pc.o].use == u
  }

  /** The step that a note is of. */
  ghost predicate NoteOf(s: State, a: Action, n: Note) {
    match n
    case Told(u, k, q, ok) =>
      exists x: nat :: a == Report(q, x, ok) && x < |Inbox(s.mail, q)| && IsSend(s, Inbox(s.mail, q)[x], u, k)
    case Offered(u, k, q, full) =>
      exists f: nat :: a == Fork(f, full) && f < |s.forks| && MakesSend(s, s.forks[f], u, k, q)
  }

  lemma NotesRight(s: State, a: Action)
    ensures forall j :: 0 <= j < |NotesOf(s, a)| ==> NoteOf(s, a, NotesOf(s, a)[j])
  {
  }

  /** Each note was read off an action of the run, in the state that it was made in. */
  lemma {:induction false} NotedIn(c: Config, nfork: nat, acts: seq<Action>, j: nat) returns (i: nat)
    requires j < |History(c, nfork, acts)|
    ensures i < |acts| && NoteOf(Run(c, nfork, acts[..i]), acts[i], History(c, nfork, acts)[j])
    decreases |acts|
  {
    hide NotesOf;
    hide NoteOf;
    hide Run;
    var before := acts[..|acts| - 1];
    if j < |History(c, nfork, before)| {
      i := NotedIn(c, nfork, before, j);
      assert before[..i] == acts[..i];
    } else {
      i := |acts| - 1;
      NotesRight(Run(c, nfork, before), acts[i]);
    }
  }

  // ---- What verdicts rest on ----

  /** One sender is done with a use: it took the message and reported success, or its inbox was full and it is one that
      discards when blocked. */
  predicate Approved(c: Config, h: seq<Note>, u: nat, k: nat, q: Sender) {
    || About(h, u, k) == [Offered(u, k, q, false), Told(u, k, q, true)]
    || (About(h, u, k) == [Offered(u, k, q, true)] && c.discardWhenBlocked(q))
  }

  /** One sender has refused it. */
  predicate Refused(c: Config, h: seq<Note>, u: nat, k: nat, q: Sender) {
    || About(h, u, k) == [Offered(u, k, q, false), Told(u, k, q, false)]
    || (About(h, u, k) == [Offered(u, k, q, true)] && !c.discardWhenBlocked(q))
  }

  ghost predicate AllApproved(c: Config, h: seq<Note>, u: nat, tag: Tag) {
    var acc := Accept(c, c.senders, tag);
    forall k :: 0 <= k < |acc| ==> Approved(c, h, u, k, acc[k])
  }

  lemma FinalDue(c: Config, s: State, i: nat, k: nat)
    requires Sound(c, s) && i < |s.finals|
    requires var fin := s.finals[i]; k < |Accept(c, c.senders, fin.info.tag)|
    ensures var fin := s.finals[i]; var acc := Accept(c, c.senders, fin.info.tag);
      && k in fin.acks
      && (k in fin.blocked ==> fin.acks[k] == c.discardWhenBlocked(acc[k]))
      && DueNow(c, s, fin.info.use, k)
         == (if k in fin.blocked then [Offered(fin.info.use, k, acc[k], true)]
             else [Offered(fin.info.use, k, acc[k], false), Told(fin.info.use, k, acc[k], fin.acks[k])])
  {
    hide Registries;
    hide Messages;
    hide Sends;
    hide Tallies;
    hide RightInboxes;
    hide Accept;
    hide Answers;
    var fin := s.finals[i];
    assert FinalOk(c, fin) && FinalAnswered(c, fin);
    assert s.uses[fin.info.use] == Use(fin.obj, fin.info, Some(i));
  }

  lemma FinalVerdict(c: Config, s: State, i: nat)
    requires Sound(c, s) && i < |s.finals|
    ensures var fin := s.finals[i]; var acc := Accept(c, c.senders, fin.info.tag);
      && (acc == [] ==> fin.committed)
      && (acc != [] ==> (fin.committed <==> forall k :: 0 <= k < |acc| ==> k in fin.acks && fin.acks[k]))
  {
    hide Registries;
    hide Messages;
    hide Sends;
    hide Tallies;
    hide UsesOk;
    hide RightInboxes;
    hide Accept;
    hide Answers;
    assert FinalOk(c, s.finals[i]) && FinalAnswered(c, s.finals[i]);
  }

  /** After any run: a message that has left the producer was offered once to each sender of its tag, and each one that
      took it reported once; and it was committed iff every one of them approved of it. */
  lemma VerdictsFromReports(c: Config, nfork: nat, acts: seq<Action>, i: nat)
    requires i < |Run(c, nfork, acts).finals|
    ensures var fin, h := Run(c, nfork, acts).finals[i], History(c, nfork, acts);
      var u, acc := fin.info.use, Accept(c, c.senders, fin.info.tag);
      && (forall k :: 0 <= k < |acc| ==> Approved(c, h, u, k, acc[k]) || Refused(c, h, u, k, acc[k]))
      && (forall k :: |acc| <= k ==> About(h, u, k) == [])
      && (fin.committed <==> AllApproved(c, h, u, fin.info.tag))
  {
    hide Run;
    hide History;
    hide Sound;
    hide DueNow;
    hide About;
    hide Accept;
    var s, h := Run(c, nfork, acts), History(c, nfork, acts);
    AlwaysSound(c, nfork, acts);
    AlwaysHonest(c, nfork, acts);
    var fin := s.finals[i];
    var u, acc := fin.info.use, Accept(c, c.senders, fin.info.tag);
    FinalVerdict(c, s, i);
    forall k | 0 <= k < |acc|
      ensures Approved(c, h, u, k, acc[k]) || Refused(c, h, u, k, acc[k])
      ensures k in fin.acks && (Approved(c, h, u, k, acc[k]) <==> fin.acks[k])
    {
      FinalDue(c, s, i, k);
      assert About(h, u, k) == DueNow(c, s, u, k);
    }
    forall k | |acc| <= k ensures About(h, u, k) == [] {
      NothingBeyond(c, s, i, k);
      assert About(h, u, k) == DueNow(c, s, u, k);
    }
  }

  lemma NothingBeyond(c: Config, s: State, i: nat, k: nat)
    requires Sound(c, s) && i < |s.finals| && |Accept(c, c.senders, s.finals[i].info.tag)| <= k
    ensures DueNow(c, s, s.finals[i].info.use, k) == []
  {
    hide Accept;
    assert UsesOk(s);
  }
}
