/** The journal never gets stuck: whatever has happened, all that was handed over to be committed, and has not been
    shed, can still be written, and every message on its way into the log can still get there. */
module JournalProgress {
  import opened JournalCommits
  import opened JournalCopies
  import opened JournalMachine
  import opened JournalProof
  import opened JournalSteps

  ghost predicate Fine(s: State) {
    Inv(s) && SideInv(s.commits) && IdsTrue(s)
  }

  /** A step of the commit runner that finds room, or of an ids writer whose attempts all succeed. */
  predicate Commits(a: Action) {
    match a
    case RunCommit(full) => !full
    case WriteIds(_, oks) => false !in oks
    case _ => false
  }

  ghost predicate NothingWaits(d: CommitSide) {
    d.commitChan == [] && forall tag :: CommitIn(d, tag) == []
  }

  ghost predicate AllCommitted(s: State, m: Commit) {
    forall id :: id in IdsOf(m) ==> HasId(s, m.tag, id)
  }

  /** Since `s`, nothing was handed over or shed, and all that was written has its ids committed. */
  ghost predicate CommittedSince(s: State, n: State) {
    && n.commits.submitted == s.commits.submitted && n.commits.shed == s.commits.shed
    && s.commits.written <= n.commits.written
    && (forall j :: |s.commits.written| <= j < |n.commits.written| ==> AllCommitted(n, n.commits.written[j]))
    && (forall m :: AllCommitted(s, m) ==> AllCommitted(n, m))
  }

  lemma Since(s: State, mid: State, n: State)
    requires CommittedSince(s, mid) && CommittedSince(mid, n)
    ensures CommittedSince(s, n)
  {
    hide AllCommitted;
    forall j | |s.commits.written| <= j < |n.commits.written| ensures AllCommitted(n, n.commits.written[j]) {
      if j < |mid.commits.written| { assert AllCommitted(mid, mid.commits.written[j]); }
    }
  }

  lemma WrittenWithin(d: CommitSide)
    requires SideInv(d)
    ensures |d.written| <= |d.submitted|
  {
    forall m ensures multiset(d.written)[m] <= d.submitted[m] {
      assert Accounted(d, m);
    }
    var rest := d.submitted - multiset(d.written);
    assert d.submitted == multiset(d.written) + rest;
  }

  /** An ids writer with something to write writes it. */
  lemma WritesOne(c: Config, s: State, tag: Tag) returns (a: Action)
    requires Fine(s) && CommitIn(s.commits, tag) != []
    ensures Commits(a) && Fine(Next(c, s, a)) && CommittedSince(s, Next(c, s, a))
    ensures |Next(c, s, a).commits.written| == |s.commits.written| + 1
  {
    var m := CommitIn(s.commits, tag)[0];
    var oks := seq(|IdsOf(m)|, _ => true);
    a := WriteIds(tag, oks);
    var n := Next(c, s, a);
    assert OfTag(CommitIn(s.commits, tag), tag);
    assert m.tag == tag;
    StepFine(c, s, a);
    hide Fine;
    hide Next;
    assert Inv(s) by { PartsOf(s); }
    WriteIdsDoes(c, s, tag, oks);
    WriteIdsSheds(c, s, tag, oks);
    IdsCommitted(c, s, tag, oks);
    assert AllCommitted(n, m) by {
      forall id | id in IdsOf(m) ensures HasId(n, tag, id) {
        var i :| 0 <= i < |IdsOf(m)| && IdsOf(m)[i] == id;
        assert oks[i] && id in Ids(n, tag);
      }
    }
    forall x | AllCommitted(s, x) ensures AllCommitted(n, x) {
      forall id | id in IdsOf(x) ensures HasId(n, x.tag, id) {
        assert id in Ids(s, x.tag);
        assert id in Ids(n, x.tag);
      }
    }
  }

  lemma PartsOf(s: State)
    requires Fine(s)
    ensures Inv(s) && SideInv(s.commits)
  {
  }

  lemma WriteIdsSheds(c: Config, s: State, tag: Tag, oks: seq<bool>)
    ensures var n := Next(c, s, WriteIds(tag, oks)).commits;
      n.submitted == s.commits.submitted && n.shed == s.commits.shed
  {
  }

  lemma StepFine(c: Config, s: State, a: Action)
    requires Fine(s)
    ensures Fine(Next(c, s, a))
  {
    hide Next;
    hide Inv;
    hide SideInv;
    hide IdsTrue;
    NextKept(c, s, a);
    NextCounted(c, s, a);
  }

  /** The commit runner passes on what waits if the ids writers have room. */
  lemma PassesOne(c: Config, s: State) returns (a: Action)
    requires Fine(s) && c.childIdLen > 0 && s.commits.commitChan != [] && forall tag :: CommitIn(s.commits, tag) == []
    ensures Commits(a) && Fine(Next(c, s, a)) && CommittedSince(s, Next(c, s, a))
    ensures Next(c, s, a).commits.written == s.commits.written
    ensures |Next(c, s, a).commits.commitChan| < |s.commits.commitChan|
  {
    a := RunCommit(false);
    var n := Next(c, s, a);
    StepFine(c, s, a);
    hide Fine;
    hide Next;
    assert Inv(s) by { PartsOf(s); }
    RunCommitDoes(c, s, false);
    forall x | AllCommitted(s, x) ensures AllCommitted(n, x) {
      forall id | id in IdsOf(x) ensures HasId(n, x.tag, id) {
        assert id in Ids(s, x.tag);
        assert id in Ids(n, x.tag);
      }
    }
  }

  lemma {:induction false} RunOn(c: Config, s: State, a: Action, more: seq<Action>)
    ensures RunFrom(c, s, [a] + more) == RunFrom(c, Next(c, s, a), more)
    decreases |more|
  {
    hide Next;
    if more == [] {
      assert ([a] + more)[..0] == [];
      assert RunFrom(c, s, []) == s;
    } else {
      RunOn(c, s, a, more[..|more| - 1]);
      assert ([a] + more)[..|more|] == [a] + more[..|more| - 1];
    }
  }

  lemma NothingMoved(c: Config, s: State)
    ensures RunFrom(c, s, []) == s && CommittedSince(s, s)
  {
  }

  lemma SameHandedOver(s: State, n: State)
    requires CommittedSince(s, n)
    ensures n.commits.submitted == s.commits.submitted
  {
  }

  lemma {:induction false} Finishes(c: Config, s: State) returns (more: seq<Action>)
    requires Fine(s) && c.childIdLen > 0
    ensures forall i :: 0 <= i < |more| ==> Commits(more[i])
    ensures var n := RunFrom(c, s, more); NothingWaits(n.commits) && Fine(n) && CommittedSince(s, n)
    decreases |s.commits.submitted| - |s.commits.written|, |s.commits.commitChan|
  {
    hide Fine;
    hide Next;
    hide CommittedSince;
    hide Commits;
    hide RunFrom;
    hide SideInv;
    hide Inv;
    PartsOf(s);
    WrittenWithin(s.commits);
    if (exists tag :: CommitIn(s.commits, tag) != []) || s.commits.commitChan != [] {
      var a;
      if tag :| CommitIn(s.commits, tag) != [] { a := WritesOne(c, s, tag); } else { a := PassesOne(c, s); }
      var next := Next(c, s, a);
      SameHandedOver(s, next);
      PartsOf(next);
      WrittenWithin(next.commits);
      var rest := Finishes(c, next);
      RunOn(c, s, a, rest);
      Since(s, next, RunFrom(c, next, rest));
      more := [a] + rest;
    } else {
      NothingMoved(c, s);
      more := [];
    }
  }

  lemma {:induction false} RunContinues(c: Config, acts: seq<Action>, more: seq<Action>)
    ensures Run(c, acts + more) == RunFrom(c, Run(c, acts), more)
    decreases |more|
  {
    hide Next;
    if more == [] {
      assert acts + more == acts;
    } else {
      RunContinues(c, acts, more[..|more| - 1]);
      assert (acts + more)[..|acts + more| - 1] == acts + more[..|more| - 1];
    }
  }

  /** After any run, the commit runner and the ids writers can go on, while nothing new comes in, until nothing waits
      to be committed: each message handed over has then been written as often as it was handed over and not shed,
      and all ids of those written on the way are committed. */
  lemma CommitsCanFinish(c: Config, acts: seq<Action>) returns (more: seq<Action>)
    requires c.childIdLen > 0
    ensures forall i :: 0 <= i < |more| ==> Commits(more[i])
    ensures var s, n := Run(c, acts), Run(c, acts + more);
      && NothingWaits(n.commits) && CommittedSince(s, n)
      && forall m :: s.commits.submitted[m] == multiset(n.commits.written)[m] + s.commits.shed[m]
  {
    hide Run;
    hide RunFrom;
    hide Inv;
    hide Commits;
    hide AllCommitted;
    var s := Run(c, acts);
    Always(c, acts);
    AlwaysCounted(c, acts);
    more := Finishes(c, s);
    RunContinues(c, acts, more);
    var n := Run(c, acts + more);
    forall m ensures s.commits.submitted[m] == multiset(n.commits.written)[m] + s.commits.shed[m] {
      assert Accounted(n.commits, m);
    }
  }

  // ---- Logging ----

  /** A step of the dumper or of a data writer whose first attempt succeeds. */
  predicate Logs(a: Action) {
    match a
    case Dump => true
    case TakeData(_) => true
    case WriteData(_, oks) => oks == [true]
    case _ => false
  }

  ghost predicate Sane(s: State) {
    Inv(s) && Balanced(s)
  }

  ghost predicate NothingOnItsWay(s: State) {
    s.dumpChan == [] && s.writers == map[] && forall tag :: Inchan(s, tag) == []
  }

  /** Nothing came in, and nothing was let go. */
  ghost predicate NothingLost(s: State, n: State) {
    && n.arrived == s.arrived && n.loaders == s.loaders
    && n.unwritten == s.unwritten && n.bypassed == s.bypassed && n.dropped == s.dropped
  }

  /** How many copies are still inside. */
  function Inside(b: Book): int {
    |b.given| - |b.passed| - |b.recycled|
  }

  lemma InsideNat(s: State)
    requires Balanced(s)
    ensures Inside(s.book) >= 0
  {
    var b := s.book;
    forall e ensures (b.passed + b.recycled)[e] <= b.given[e] {
      assert Balance(s, e);
    }
    assert b.given == (b.passed + b.recycled) + (b.given - (b.passed + b.recycled));
  }

  lemma SaneStep(c: Config, s: State, a: Action)
    requires Sane(s)
    ensures Sane(Next(c, s, a))
  {
    hide Next;
    hide Inv;
    hide Balanced;
    NextKept(c, s, a);
    NextBalanced(c, s, a);
  }

  lemma WriteMoves(c: Config, s: State, tag: Tag)
    requires Inv(s) && tag in s.writers
    ensures var n := Next(c, s, WriteData(tag, [true]));
      Inside(n.book) == Inside(s.book) - 1 && NothingLost(s, n)
  {
    assert SlotOk(SlotOf(s, tag), tag, s.arrived);
  }

  lemma TakeMoves(c: Config, s: State, tag: Tag)
    requires Inchan(s, tag) != [] && s.writers == map[]
    ensures var n := Next(c, s, TakeData(tag));
      Inside(n.book) == Inside(s.book) && n.dumpChan == s.dumpChan && n.writers != map[] && NothingLost(s, n)
  {
    assert tag in Next(c, s, TakeData(tag)).writers;
  }

  lemma DumpMoves(c: Config, s: State)
    requires Inv(s) && c.childDataLen > 0 && s.dumpChan != [] && Inchan(s, s.dumpChan[0].tag) == []
    ensures var n := Next(c, s, Dump);
      Inside(n.book) == Inside(s.book) && |n.dumpChan| < |s.dumpChan| && NothingLost(s, n)
  {
    assert SlotOk(SlotOf(s, s.dumpChan[0].tag), s.dumpChan[0].tag, s.arrived);
  }

  ghost predicate Nearer(n: State, s: State) {
    || Inside(n.book) < Inside(s.book)
    || (Inside(n.book) == Inside(s.book) &&
        (|n.dumpChan| < |s.dumpChan|
         || (|n.dumpChan| == |s.dumpChan| && s.writers == map[] && n.writers != map[])))
  }

  /** While something is on its way, the dumper or a data writer can bring it nearer to the log. */
  lemma SomethingToLog(c: Config, s: State) returns (a: Action)
    requires Sane(s) && c.childDataLen > 0 && !NothingOnItsWay(s)
    ensures Logs(a) && Sane(Next(c, s, a)) && NothingLost(s, Next(c, s, a)) && Nearer(Next(c, s, a), s)
  {
    hide Inv;
    hide Balanced;
    hide Next;
    hide NothingLost;
    hide Inside;
    if tag :| tag in s.writers {
      a := WriteData(tag, [true]);
      WriteMoves(c, s, tag);
    } else if tag :| Inchan(s, tag) != [] {
      assert s.writers == map[];
      a := TakeData(tag);
      TakeMoves(c, s, tag);
    } else {
      assert s.writers == map[];
      a := Dump;
      DumpMoves(c, s);
    }
    SaneStep(c, s, a);
  }

  lemma {:induction false} LogsAll(c: Config, s: State) returns (more: seq<Action>)
    requires Sane(s) && c.childDataLen > 0
    ensures forall i :: 0 <= i < |more| ==> Logs(more[i])
    ensures var n := RunFrom(c, s, more); NothingOnItsWay(n) && NothingLost(s, n)
    decreases Inside(s.book), |s.dumpChan|, s.writers == map[]
  {
    hide Sane;
    hide NothingOnItsWay;
    hide Next;
    hide RunFrom;
    hide Logs;
    hide Inside;
    InsideOf(s);
    if NothingOnItsWay(s) {
      assert RunFrom(c, s, []) == s by { NothingMoved(c, s); }
      more := [];
    } else {
      var a := SomethingToLog(c, s);
      InsideOf(Next(c, s, a));
      var rest := LogsAll(c, Next(c, s, a));
      RunOn(c, s, a, rest);
      more := [a] + rest;
    }
  }

  lemma BalancedNow(s: State)
    requires forall e :: s.book.given[e] == multiset(s.dumpChan)[e] + multiset(Inchan(s, e.tag))[e] + InHand(s, e)
                                          + s.book.passed[e] + s.book.recycled[e]
    ensures Balanced(s)
  {
  }

  lemma InsideOf(s: State)
    requires Sane(s)
    ensures Inside(s.book) >= 0
  {
    InsideNat(s);
  }

  /** After any run, dumper and data writers can go on, while nothing new comes in and nothing is let go, until
      nothing is on its way to them: each message that ever arrived is then committed, in the log, in the hand of a
      legacy loader, or it had been let go before. */
  lemma AllCanBeLogged(c: Config, acts: seq<Action>) returns (more: seq<Action>)
    requires c.childDataLen > 0
    ensures forall i :: 0 <= i < |more| ==> Logs(more[i])
    ensures var s, n := Run(c, acts), Run(c, acts + more);
      && NothingOnItsWay(n) && NothingLost(s, n)
      && forall e :: e in s.arrived ==>
           Committed(n, e) || Logged(n, e) || (e.tag in n.loaders && n.loaders[e.tag] == e) || LetGo(s, e)
  {
    hide Run;
    hide RunFrom;
    hide Inv;
    hide Balanced;
    hide Logs;
    hide Committed;
    hide Logged;
    var s := Run(c, acts);
    Always(c, acts);
    CopiesConserved(c, acts);
    assert Balanced(s) by { BalancedNow(s); }
    more := LogsAll(c, s);
    RunContinues(c, acts, more);
    JournalNeverForgets(c, acts + more);
    var n := Run(c, acts + more);
    forall e | e in s.arrived
      ensures Committed(n, e) || Logged(n, e) || (e.tag in n.loaders && n.loaders[e.tag] == e) || LetGo(s, e)
    {
      assert Inchan(n, e.tag) == [];
    }
  }
}
