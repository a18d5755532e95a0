/** Committing: every message handed over is written once, waits, or is shed; and an id is written only for a message
    that was handed over. */
module JournalCommits {
  import opened JournalMachine
  import opened JournalProof

  /** The ids of messages in the order they are to be written, each under the tag of its message. */
  function Due(ms: seq<Commit>): seq<(Tag, int)> {
    if ms == [] then [] else Due(ms[..|ms| - 1]) + Each(ms[|ms| - 1].tag, IdsOf(ms[|ms| - 1]))
  }

  function Each(tag: Tag, ids: seq<int>): seq<(Tag, int)> {
    if ids == [] then [] else Each(tag, ids[..|ids| - 1]) + [(tag, ids[|ids| - 1])]
  }

  /** What WriteId was called with. */
  function Tried(attempts: seq<Attempt>): seq<(Tag, int)> {
    if attempts == [] then []
    else Tried(attempts[..|attempts| - 1]) + [(attempts[|attempts| - 1].tag, attempts[|attempts| - 1].id)]
  }

  lemma {:induction false} TriedTogether(a: seq<Attempt>, b: seq<Attempt>)
    ensures Tried(a + b) == Tried(a) + Tried(b)
    decreases |b|
  {
    if b == [] {
      assert a + b == a;
    } else {
      var b' := b[..|b| - 1];
      assert (a + b)[..|a + b| - 1] == a + b';
      TriedTogether(a, b');
      assert Tried(a) + Tried(b) == (Tried(a) + Tried(b')) + [(b[|b| - 1].tag, b[|b| - 1].id)];
    }
  }

  /** Whatever the results, each id is tried exactly once and in order. */
  lemma {:induction false} OneAttemptEach(tag: Tag, ids: seq<int>, oks: seq<bool>)
    ensures Tried(AttemptsFor(tag, ids, oks)) == Each(tag, ids)
    decreases |ids|
  {
    if ids != [] {
      var k := |ids| - 1;
      OneAttemptEach(tag, ids[..k], oks);
      var tries := AttemptsFor(tag, ids, oks);
      assert tries[..|tries| - 1] == AttemptsFor(tag, ids[..k], oks);
    }
  }

  lemma DueSnoc(ms: seq<Commit>, m: Commit)
    ensures Due(ms + [m]) == Due(ms) + Each(m.tag, IdsOf(m))
  {
    assert (ms + [m])[..|ms|] == ms;
  }

  function CommitIn(d: CommitSide, tag: Tag): seq<Commit> {
    if tag in d.tag2JJCommitChanMap then d.tag2JJCommitChanMap[tag] else []
  }

  ghost predicate OfTag(ms: seq<Commit>, tag: Tag) {
    forall m :: m in ms ==> m.tag == tag
  }

  /** Where the copies of a message to be committed are. */
  ghost predicate Accounted(d: CommitSide, m: Commit) {
    d.submitted[m] == multiset(d.commitChan)[m] + multiset(CommitIn(d, m.tag))[m] + multiset(d.written)[m] + d.shed[m]
  }

  ghost predicate SideInv(d: CommitSide) {
    && (forall m :: Accounted(d, m))
    && (forall tag :: OfTag(CommitIn(d, tag), tag))
    && Tried(d.attempts) == Due(d.written)
  }

  ghost predicate HasId(s: State, tag: Tag, id: int) {
    tag in s.tag2JMap && id in s.tag2JMap[tag].ids
  }

  ghost predicate IdsTrue(s: State) {
    forall tag, id :: HasId(s, tag, id) <==> Attempt(tag, id, true) in s.commits.attempts
  }

  lemma HeadOf<T>(q: seq<T>, x: T)
    requires q != []
    ensures multiset(q)[x] == multiset(q[1..])[x] + if x == q[0] then 1 else 0
  {
    assert q == [q[0]] + q[1..];
  }

  lemma LastOf<T>(q: seq<T>, last: T, x: T)
    ensures multiset(q + [last])[x] == multiset(q)[x] + if x == last then 1 else 0
  {
  }

  lemma SubmitCounted(d: CommitSide, m: Commit)
    requires SideInv(d)
    ensures SideInv(Submitted(d, m))
  {
    var n := Submitted(d, m);
    forall x ensures Accounted(n, x) {
      assert Accounted(d, x);
      LastOf(d.commitChan, m, x);
    }
    forall tag ensures OfTag(CommitIn(n, tag), tag) { assert OfTag(CommitIn(d, tag), tag); }
  }

  lemma CreateCounted(s: State, tag: Tag)
    requires SideInv(s.commits) && IdsTrue(s) && Inv(s)
    ensures SideInv(Create(s, tag).commits) && IdsTrue(Create(s, tag))
  {
    var n := Create(s, tag);
    assert SlotOk(SlotOf(s, tag), tag, s.arrived);
    forall x ensures Accounted(n.commits, x) {
      assert Accounted(s.commits, x);
      assert CommitIn(n.commits, x.tag) == CommitIn(s.commits, x.tag);
    }
    forall t ensures OfTag(CommitIn(n.commits, t), t) { assert OfTag(CommitIn(s.commits, t), t); }
    forall t, id ensures HasId(n, t, id) <==> HasId(s, t, id) {
    }
  }

  lemma CommittingAccounted(c: Config, d: CommitSide, full: bool, x: Commit)
    requires d.commitChan != [] && d.commitChan[0].tag in d.tag2JJCommitChanMap && Accounted(d, x)
    ensures Accounted(Committing(c, Popped(d), d.commitChan[0], full), x)
  {
    var m, rest := d.commitChan[0], d.commitChan[1..];
    HeadOf(d.commitChan, x);
    LastOf(rest, m, x);
    LastOf(d.tag2JJCommitChanMap[m.tag], m, x);
  }

  lemma CommittingCounted(c: Config, d: CommitSide, full: bool)
    requires SideInv(d) && d.commitChan != [] && d.commitChan[0].tag in d.tag2JJCommitChanMap
    ensures SideInv(Committing(c, Popped(d), d.commitChan[0], full))
  {
    hide Accounted;
    var n := Committing(c, Popped(d), d.commitChan[0], full);
    forall x ensures Accounted(n, x) { CommittingAccounted(c, d, full, x); }
    forall tag ensures OfTag(CommitIn(n, tag), tag) { assert OfTag(CommitIn(d, tag), tag); }
  }

  lemma {:induction false} AttemptsMeet(tag: Tag, ids: seq<int>, oks: seq<bool>, t: Tag, id: int)
    ensures Attempt(t, id, true) in AttemptsFor(tag, ids, oks)
        <==> t == tag && id in WrittenIn(AttemptsFor(tag, ids, oks))
    decreases |ids|
  {
    AttemptsOfTag(tag, ids, oks);
    var attempts := AttemptsFor(tag, ids, oks);
    if Attempt(t, id, true) in attempts {
      var i :| 0 <= i < |attempts| && attempts[i] == Attempt(t, id, true);
      assert attempts[i].ok;
    }
    if t == tag && id in WrittenIn(attempts) {
      var i :| 0 <= i < |attempts| && attempts[i].ok && attempts[i].id == id;
      assert attempts[i] == Attempt(t, id, true);
    }
  }

  lemma {:induction false} AttemptsOfTag(tag: Tag, ids: seq<int>, oks: seq<bool>)
    ensures forall i :: 0 <= i < |AttemptsFor(tag, ids, oks)| ==> AttemptsFor(tag, ids, oks)[i].tag == tag
    decreases |ids|
  {
    if ids != [] { AttemptsOfTag(tag, ids[..|ids| - 1], oks); }
  }

  lemma WriteIdsCounted(s: State, tag: Tag, oks: seq<bool>)
    requires tag in s.commits.tag2JJCommitChanMap && tag in s.tag2JMap && s.commits.tag2JJCommitChanMap[tag] != []
    requires SideInv(s.commits)
    ensures SideInv(IdsWritten(s, tag, oks).commits)
  {
    hide AttemptsFor;
    hide Tried;
    hide Due;
    hide WrittenIn;
    var d, n := s.commits, IdsWritten(s, tag, oks).commits;
    var q := d.tag2JJCommitChanMap[tag];
    assert OfTag(CommitIn(d, tag), tag) && q[0] in CommitIn(d, tag);
    forall x ensures Accounted(n, x) {
      assert Accounted(d, x);
      HeadOf(q, x);
      LastOf(d.written, q[0], x);
    }
    forall t ensures OfTag(CommitIn(n, t), t) { assert OfTag(CommitIn(d, t), t); }
    OneAttemptEach(tag, IdsOf(q[0]), oks);
    TriedTogether(d.attempts, AttemptsFor(tag, IdsOf(q[0]), oks));
    DueSnoc(d.written, q[0]);
  }

  lemma WriteIdsTrue(s: State, tag: Tag, oks: seq<bool>)
    requires tag in s.commits.tag2JJCommitChanMap && tag in s.tag2JMap && s.commits.tag2JJCommitChanMap[tag] != []
    requires IdsTrue(s)
    ensures IdsTrue(IdsWritten(s, tag, oks))
  {
    hide AttemptsFor;
    hide WrittenIn;
    hide IdsOf;
    var n, ids := IdsWritten(s, tag, oks), IdsOf(s.commits.tag2JJCommitChanMap[tag][0]);
    forall t, id ensures HasId(n, t, id) <==> Attempt(t, id, true) in n.commits.attempts {
      AttemptsMeet(tag, ids, oks, t, id);
      assert HasId(s, t, id) <==> Attempt(t, id, true) in s.commits.attempts;
    }
  }

  ghost predicate OnlyData(a: Action) {
    a.Arrive? || a.TakeData? || a.WriteData? || a.Consume? || a.StartPass? || a.LoadNext? || a.PushBack?
  }

  /** These steps leave the commit side and the ids alone. */
  lemma DataOnly(c: Config, s: State, a: Action)
    requires OnlyData(a)
    ensures Next(c, s, a).commits == s.commits
    ensures forall tag, id :: HasId(Next(c, s, a), tag, id) <==> HasId(s, tag, id)
  {
    hide Next;
    if a.WriteData? {
      WriteDataOnly(c, s, a.tag, a.oks);
    } else if a.StartPass? || a.LoadNext? {
      PassOnly(c, s, a);
    } else {
      MovesOnly(c, s, a);
    }
  }

  lemma WriteDataOnly(c: Config, s: State, tag: Tag, oks: seq<bool>)
    ensures var n := Next(c, s, WriteData(tag, oks));
            n.commits == s.commits && forall t, id :: HasId(n, t, id) <==> HasId(s, t, id)
  {
  }

  lemma PassOnly(c: Config, s: State, a: Action)
    requires a.StartPass? || a.LoadNext?
    ensures var n := Next(c, s, a); n.commits == s.commits && forall t, id :: HasId(n, t, id) <==> HasId(s, t, id)
  {
    hide Next;
    hide HasId;
    PassFrame(c, s, a);
    PassIds(c, s, a);
  }

  lemma PassIds(c: Config, s: State, a: Action)
    requires a.StartPass? || a.LoadNext?
    ensures forall t, id :: HasId(Next(c, s, a), t, id) <==> HasId(s, t, id)
  {
  }

  lemma MovesOnly(c: Config, s: State, a: Action)
    requires a.Arrive? || a.TakeData? || a.Consume? || a.PushBack?
    ensures Next(c, s, a).commits == s.commits && Next(c, s, a).tag2JMap == s.tag2JMap
  {
  }

  lemma DumpedOnly(c: Config, s: State, e: Entry)
    requires e.tag in s.tag2JJInchanMap
    ensures Dumped(c, s, e).commits == s.commits && Dumped(c, s, e).tag2JMap == s.tag2JMap
  {
  }

  lemma NextCounted(c: Config, s: State, a: Action)
    requires SideInv(s.commits) && IdsTrue(s) && Inv(s)
    ensures SideInv(Next(c, s, a).commits) && IdsTrue(Next(c, s, a))
  {
    hide SideInv;
    hide Inv;
    hide Dumped;
    hide Committing;
    hide IdsWritten;
    hide Create;
    if OnlyData(a) {
      DataOnly(c, s, a);
    } else {
      match a
      case Dump =>
        if s.dumpChan != [] {
          var s' := Create(s, s.dumpChan[0].tag);
          CreateCounted(s, s.dumpChan[0].tag);
          if s.dumpChan[0].tag in s'.tag2JJInchanMap { DumpedOnly(c, s'.(dumpChan := s.dumpChan[1..]), s.dumpChan[0]); }
        }
      case Submit(m) => SubmitCounted(s.commits, m);
      case RunCommit(full) =>
        if s.commits.commitChan != [] {
          RunCommitCounted(c, s, full);
        }
      case WriteIds(tag, oks) =>
        if tag in s.commits.tag2JJCommitChanMap && tag in s.tag2JMap && s.commits.tag2JJCommitChanMap[tag] != [] {
          WriteIdsCounted(s, tag, oks);
          WriteIdsTrue(s, tag, oks);
        }
    }
  }

  lemma RunCommitCounted(c: Config, s: State, full: bool)
    requires SideInv(s.commits) && IdsTrue(s) && Inv(s) && s.commits.commitChan != []
    ensures SideInv(Next(c, s, RunCommit(full)).commits) && IdsTrue(Next(c, s, RunCommit(full)))
  {
    hide SideInv;
    hide Committing;
    var m := s.commits.commitChan[0];
    var s' := Create(s, m.tag);
    CreateCounted(s, m.tag);
    CreateKept(s, m.tag);
    CommittingCounted(c, s'.commits, full);
    CommittingTries(c, Popped(s'.commits), m, full);
    forall tag, id ensures HasId(Next(c, s, RunCommit(full)), tag, id) <==> HasId(s', tag, id) {
    }
  }

  lemma CommittingTries(c: Config, d: CommitSide, m: Commit, full: bool)
    requires m.tag in d.tag2JJCommitChanMap
    ensures Committing(c, d, m, full).attempts == d.attempts
  {
  }

  lemma {:induction false} AlwaysCounted(c: Config, acts: seq<Action>)
    ensures SideInv(Run(c, acts).commits) && IdsTrue(Run(c, acts))
    decreases |acts|
  {
    hide Next;
    hide SideInv;
    hide IdsTrue;
    if acts != [] {
      AlwaysCounted(c, acts[..|acts| - 1]);
      Always(c, acts[..|acts| - 1]);
      NextCounted(c, Run(c, acts[..|acts| - 1]), acts[|acts| - 1]);
    } else {
      InitCounted();
    }
  }

  lemma InitCounted()
    ensures SideInv(Init().commits) && IdsTrue(Init())
  {
  }

  ghost predicate Asked(ms: multiset<Commit>, tag: Tag, id: int) {
    exists m :: m in ms && m.tag == tag && id in IdsOf(m)
  }

  lemma {:induction false} DueAsked(ms: seq<Commit>, i: nat)
    requires i < |Due(ms)|
    ensures Asked(multiset(ms), Due(ms)[i].0, Due(ms)[i].1)
    decreases |ms|
  {
    var before, m := ms[..|ms| - 1], ms[|ms| - 1];
    assert ms == before + [m];
    if i < |Due(before)| {
      DueAsked(before, i);
    } else {
      EachOf(m.tag, IdsOf(m), i - |Due(before)|);
      assert m in multiset(ms);
    }
  }

  lemma {:induction false} EachOf(tag: Tag, ids: seq<int>, i: nat)
    requires i < |Each(tag, ids)|
    ensures Each(tag, ids)[i].0 == tag && Each(tag, ids)[i].1 in ids
    decreases |ids|
  {
    if i < |ids| - 1 && i < |Each(tag, ids[..|ids| - 1])| { EachOf(tag, ids[..|ids| - 1], i); }
    EachLength(tag, ids);
    if ids != [] { EachLength(tag, ids[..|ids| - 1]); }
  }

  lemma {:induction false} EachLength(tag: Tag, ids: seq<int>)
    ensures |Each(tag, ids)| == |ids|
    decreases |ids|
  {
    if ids != [] { EachLength(tag, ids[..|ids| - 1]); }
  }

  lemma {:induction false} TriedAt(attempts: seq<Attempt>)
    ensures |Tried(attempts)| == |attempts|
    ensures forall i :: 0 <= i < |attempts| ==>
              Tried(attempts)[i].0 == attempts[i].tag && Tried(attempts)[i].1 == attempts[i].id
    decreases |attempts|
  {
    if attempts != [] { TriedAt(attempts[..|attempts| - 1]); }
  }

  /** After any run: each message handed over waits in the commit channel or at the ids writer of its tag, has been
      written or has been shed, as often as it was handed over; the calls of WriteId are one for the ID and one for each
      of the ExtIds of the messages written, in order, failed or not; every call is for an id of a message that was
      handed over, in the journal of its tag; and an id counts as committed iff a call for it has succeeded. */
  lemma CommitsAreExact(c: Config, acts: seq<Action>)
    ensures var s := Run(c, acts); var d := s.commits;
      && (forall m :: d.submitted[m] == multiset(d.commitChan)[m] + multiset(CommitIn(d, m.tag))[m]
                                      + multiset(d.written)[m] + d.shed[m])
      && Tried(d.attempts) == Due(d.written)
      && (forall i :: 0 <= i < |d.attempts| ==> Asked(d.submitted, d.attempts[i].tag, d.attempts[i].id))
      && (forall tag, id :: HasId(s, tag, id) <==> Attempt(tag, id, true) in d.attempts)
  {
    hide Run;
    var d := Run(c, acts).commits;
    AlwaysCounted(c, acts);
    forall m
      ensures d.submitted[m] == multiset(d.commitChan)[m] + multiset(CommitIn(d, m.tag))[m]
                              + multiset(d.written)[m] + d.shed[m]
    {
      assert Accounted(d, m);
    }
    forall i | 0 <= i < |d.attempts| ensures Asked(d.submitted, d.attempts[i].tag, d.attempts[i].id) {
      AttemptAsked(d, i);
    }
  }

  lemma AttemptAsked(d: CommitSide, i: nat)
    requires SideInv(d) && i < |d.attempts|
    ensures Asked(d.submitted, d.attempts[i].tag, d.attempts[i].id)
  {
    TriedAt(d.attempts);
    DueAsked(d.written, i);
    var m :| m in multiset(d.written) && m.tag == d.attempts[i].tag && d.attempts[i].id in IdsOf(m);
    assert Accounted(d, m);
  }
}
