/** What each step of the journal does to its channels, logs and ids: for every state that runs can reach, exactly
    when it moves what, and that it leaves everything else alone. */
module JournalSteps {
  import opened JournalCommits
  import opened JournalCopies
  import opened JournalMachine
  import opened JournalProof

  /** What has been logged for a tag since the last pass began, and what that pass has yet to read. */
  function Data(s: State, tag: Tag): seq<Entry> {
    if tag in s.tag2JMap then s.tag2JMap[tag].data else []
  }

  function Legacy(s: State, tag: Tag): seq<Entry> {
    if tag in s.tag2JMap then s.tag2JMap[tag].legacy else []
  }

  function Ids(s: State, tag: Tag): set<int> {
    if tag in s.tag2JMap then s.tag2JMap[tag].ids else {}
  }

  predicate Loading(s: State, tag: Tag) {
    tag in s.tag2JMap && s.tag2JMap[tag].loading
  }

  /** Logs, ids and passes are as they were. */
  ghost predicate SameFiles(s: State, n: State) {
    forall tag ::
      && Data(n, tag) == Data(s, tag) && Legacy(n, tag) == Legacy(s, tag) && Ids(n, tag) == Ids(s, tag)
      && Loading(n, tag) == Loading(s, tag)
  }

  /** So are the data writers and their channels. */
  ghost predicate SameData(s: State, n: State) {
    n.writers == s.writers && forall tag :: Inchan(n, tag) == Inchan(s, tag)
  }

  ghost predicate SameCommits(s: State, n: State) {
    && n.commits.commitChan == s.commits.commitChan && n.commits.written == s.commits.written
    && n.commits.attempts == s.commits.attempts && n.commits.shed == s.commits.shed
    && n.commits.submitted == s.commits.submitted
    && forall tag :: CommitIn(n.commits, tag) == CommitIn(s.commits, tag)
  }

  // ---- Creation ----

  lemma CreateDoes(s: State, t: Tag)
    requires Inv(s)
    ensures var n := Create(s, t);
      && SameFiles(s, n) && SameData(s, n) && SameCommits(s, n)
      && n.dumpChan == s.dumpChan && n.outChan == s.outChan && n.loaders == s.loaders && n.arrived == s.arrived
      && t in n.tag2JMap && t in n.tag2JJInchanMap && t in n.commits.tag2JJCommitChanMap
      && (forall tag :: tag in n.tag2JMap <==> tag in s.tag2JMap || tag == t)
  {
    assert SlotOk(SlotOf(s, t), t, s.arrived);
  }

  // ---- The data side ----

  lemma ArriveDoes(c: Config, s: State, e: Entry)
    ensures |s.dumpChan| >= c.dumpLen ==> Next(c, s, Arrive(e)) == s
    ensures |s.dumpChan| < c.dumpLen ==>
              var n := Next(c, s, Arrive(e));
              && n.dumpChan == s.dumpChan + [e] && n.arrived == s.arrived + {e}
              && n == s.(dumpChan := n.dumpChan, arrived := n.arrived, book := n.book)
  {
  }

  /** The dumper takes the oldest message: it goes to the end of the channel of its tag if there is room; else out if
      there is room; else nowhere. */
  lemma DumpDoes(c: Config, s: State)
    requires Inv(s)
    ensures s.dumpChan == [] ==> Next(c, s, Dump) == s
    ensures s.dumpChan != [] ==>
              var n, e := Next(c, s, Dump), s.dumpChan[0];
              var free, out := |Inchan(s, e.tag)| < c.childDataLen, |s.outChan| < c.outLen;
              && n.dumpChan == s.dumpChan[1..]
              && Inchan(n, e.tag) == (if free then Inchan(s, e.tag) + [e] else Inchan(s, e.tag))
              && n.outChan == (if !free && out then s.outChan + [e] else s.outChan)
              && (forall tag :: tag != e.tag ==> Inchan(n, tag) == Inchan(s, tag))
              && n.writers == s.writers && n.loaders == s.loaders && SameFiles(s, n) && SameCommits(s, n)
  {
    if s.dumpChan != [] {
      var e := s.dumpChan[0];
      CreateDoes(s, e.tag);
      hide Create;
      hide Inv;
      DumpedDoes(c, Create(s, e.tag).(dumpChan := s.dumpChan[1..]), e);
      hide Dumped;
      assert Next(c, s, Dump) == Dumped(c, Create(s, e.tag).(dumpChan := s.dumpChan[1..]), e);
    }
  }

  lemma DumpedDoes(c: Config, s: State, e: Entry)
    requires e.tag in s.tag2JJInchanMap
    ensures var n := Dumped(c, s, e);
      var free, out := |Inchan(s, e.tag)| < c.childDataLen, |s.outChan| < c.outLen;
      && n.dumpChan == s.dumpChan && n.tag2JMap == s.tag2JMap && n.commits == s.commits
      && n.writers == s.writers && n.loaders == s.loaders
      && Inchan(n, e.tag) == (if free then Inchan(s, e.tag) + [e] else Inchan(s, e.tag))
      && n.outChan == (if !free && out then s.outChan + [e] else s.outChan)
      && (forall tag :: tag != e.tag ==> Inchan(n, tag) == Inchan(s, tag))
  {
  }

  /** A data writer that has nothing in hand takes the oldest message of its tag. */
  lemma TakeDataDoes(c: Config, s: State, tag: Tag)
    ensures Inchan(s, tag) == [] || tag in s.writers ==> Next(c, s, TakeData(tag)) == s
    ensures Inchan(s, tag) != [] && tag !in s.writers ==>
              var n := Next(c, s, TakeData(tag));
              && n.writers == s.writers[tag := Inchan(s, tag)[0]] && Inchan(n, tag) == Inchan(s, tag)[1..]
              && (forall t :: t != tag ==> Inchan(n, t) == Inchan(s, t))
              && n == s.(writers := n.writers, tag2JJInchanMap := n.tag2JJInchanMap)
  {
  }

  /** The message is logged, behind those before it, iff the first or the second attempt succeeds; in any case it
      goes out if there is room. */
  lemma WriteDataDoes(c: Config, s: State, tag: Tag, oks: seq<bool>)
    requires Inv(s)
    ensures tag !in s.writers ==> Next(c, s, WriteData(tag, oks)) == s
    ensures tag in s.writers ==>
              var n, e := Next(c, s, WriteData(tag, oks)), s.writers[tag];
              var logged := (|oks| >= 1 && oks[0]) || (|oks| >= 2 && oks[1]);
              && n.writers == s.writers - {tag}
              && Data(n, tag) == (if logged then Data(s, tag) + [e] else Data(s, tag))
              && n.outChan == (if |s.outChan| < c.outLen then s.outChan + [e] else s.outChan)
              && (forall t :: t != tag ==> Data(n, t) == Data(s, t))
              && (forall t :: Legacy(n, t) == Legacy(s, t) && Ids(n, t) == Ids(s, t) && Loading(n, t) == Loading(s, t))
              && n.unwritten == (if logged then s.unwritten else s.unwritten + {e})
              && n.book == (if |s.outChan| < c.outLen then s.book.(passed := s.book.passed + multiset{e})
                            else s.book.(recycled := s.book.recycled + multiset{e}))
              && n == s.(writers := n.writers, tag2JMap := n.tag2JMap, outChan := n.outChan,
                         unwritten := n.unwritten, book := n.book)
  {
    assert SlotOk(SlotOf(s, tag), tag, s.arrived);
  }

  lemma ConsumeDoes(c: Config, s: State)
    ensures Next(c, s, Consume) == if s.outChan == [] then s else s.(outChan := s.outChan[1..])
  {
  }

  // ---- Passes ----

  /** A pass begins when none is under way and no entry is in hand: what has been logged since joins what is left of
      older data, to be read again. */
  lemma StartPassDoes(c: Config, s: State, tag: Tag, loaded: set<int>)
    ensures var n := Next(c, s, StartPass(tag, loaded));
      if tag in s.tag2JMap && !Loading(s, tag) && tag !in s.loaders && loaded <= Ids(s, tag) then
        && Legacy(n, tag) == Legacy(s, tag) + Data(s, tag) && Data(n, tag) == [] && Ids(n, tag) == Ids(s, tag)
        && Loading(n, tag) && n.tag2JMap[tag].loaded == loaded
        && n == s.(tag2JMap := s.tag2JMap[tag := n.tag2JMap[tag]])
      else n == s
  {
  }

  /** It reads one entry after the other: takes it in hand, or passes over it since its id is among those that the pass
      has read; at the end of the data it is over. */
  lemma LoadNextDoes(c: Config, s: State, tag: Tag)
    ensures var n := Next(c, s, LoadNext(tag));
      if !Loading(s, tag) || tag in s.loaders then n == s
      else if Legacy(s, tag) == [] then
        !Loading(n, tag) && n == s.(tag2JMap := s.tag2JMap[tag := s.tag2JMap[tag].(loading := false)])
      else
        var e := Legacy(s, tag)[0];
        && Legacy(n, tag) == Legacy(s, tag)[1..]
        && n.loaders == (if e.id in s.tag2JMap[tag].loaded then s.loaders else s.loaders[tag := e])
        && n == s.(tag2JMap := s.tag2JMap[tag := s.tag2JMap[tag].(legacy := Legacy(s, tag)[1..])], loaders := n.loaders)
  {
  }

  /** The entry in hand goes to the end of dumpChan as soon as there is room. */
  lemma PushBackDoes(c: Config, s: State, tag: Tag)
    ensures var n := Next(c, s, PushBack(tag));
      if tag in s.loaders && |s.dumpChan| < c.dumpLen then
        && n.dumpChan == s.dumpChan + [s.loaders[tag]] && n.loaders == s.loaders - {tag}
        && n == s.(dumpChan := n.dumpChan, loaders := n.loaders, book := n.book)
      else n == s
  {
  }

  // ---- Committing ----

  lemma SubmitDoes(c: Config, s: State, m: Commit)
    ensures var n := Next(c, s, Submit(m));
      if |s.commits.commitChan| < c.commitLen then
        && n.commits.commitChan == s.commits.commitChan + [m]
        && n.commits.submitted == s.commits.submitted + multiset{m}
        && n == s.(commits := s.commits.(commitChan := n.commits.commitChan, submitted := n.commits.submitted))
      else n == s
  {
  }

  /** The commit runner takes the oldest message: it goes to the ids writer of its tag iff that has room; back to the
      end of the commit channel iff it has none and the commit channel has not filled up again; it is shed iff both
      are full. */
  lemma RunCommitDoes(c: Config, s: State, full: bool)
    requires Inv(s)
    ensures s.commits.commitChan == [] ==> Next(c, s, RunCommit(full)) == s
    ensures s.commits.commitChan != [] ==>
              var n, m := Next(c, s, RunCommit(full)), s.commits.commitChan[0];
              var free := |CommitIn(s.commits, m.tag)| < c.childIdLen;
              && CommitIn(n.commits, m.tag)
                 == (if free then CommitIn(s.commits, m.tag) + [m] else CommitIn(s.commits, m.tag))
              && n.commits.commitChan
                 == (if !free && !full then s.commits.commitChan[1..] + [m] else s.commits.commitChan[1..])
              && n.commits.shed == (if !free && full then s.commits.shed + multiset{m} else s.commits.shed)
              && (forall tag :: tag != m.tag ==> CommitIn(n.commits, tag) == CommitIn(s.commits, tag))
              && n.commits.written == s.commits.written && n.commits.attempts == s.commits.attempts
              && n.commits.submitted == s.commits.submitted
              && SameFiles(s, n) && SameData(s, n) && n.dumpChan == s.dumpChan && n.outChan == s.outChan
              && n.loaders == s.loaders
  {
    if s.commits.commitChan != [] {
      var m := s.commits.commitChan[0];
      var s' := Create(s, m.tag);
      CreateDoes(s, m.tag);
      hide Create;
      hide Inv;
      CommittingDoes(c, s'.commits, m, full);
      hide Committing;
      assert Next(c, s, RunCommit(full)) == s'.(commits := Committing(c, Popped(s'.commits), m, full));
    }
  }

  lemma CommittingDoes(c: Config, d: CommitSide, m: Commit, full: bool)
    requires m.tag in d.tag2JJCommitChanMap && d.commitChan != []
    ensures var n := Committing(c, Popped(d), m, full);
      var free := |CommitIn(d, m.tag)| < c.childIdLen;
      && CommitIn(n, m.tag) == (if free then CommitIn(d, m.tag) + [m] else CommitIn(d, m.tag))
      && n.commitChan == (if !free && !full then d.commitChan[1..] + [m] else d.commitChan[1..])
      && n.shed == (if !free && full then d.shed + multiset{m} else d.shed)
      && (forall tag :: tag != m.tag ==> CommitIn(n, tag) == CommitIn(d, tag))
      && n.written == d.written && n.attempts == d.attempts && n.submitted == d.submitted
  {
  }

  /** The ids writer takes the oldest message of its tag and tries each of its ids once, in order. */
  lemma WriteIdsDoes(c: Config, s: State, tag: Tag, oks: seq<bool>)
    requires Inv(s)
    ensures CommitIn(s.commits, tag) == [] ==> Next(c, s, WriteIds(tag, oks)) == s
    ensures CommitIn(s.commits, tag) != [] ==>
              var n, m := Next(c, s, WriteIds(tag, oks)), CommitIn(s.commits, tag)[0];
              var ids, was := [m.id] + m.extIds, s.commits.attempts;
              && CommitIn(n.commits, tag) == CommitIn(s.commits, tag)[1..]
              && n.commits.written == s.commits.written + [m]
              && |n.commits.attempts| == |was| + |ids| && was <= n.commits.attempts
              && (forall i :: 0 <= i < |ids| ==>
                    n.commits.attempts[|was| + i] == Attempt(tag, ids[i], i < |oks| && oks[i]))
              && (forall t :: t != tag ==> CommitIn(n.commits, t) == CommitIn(s.commits, t))
              && n == s.(tag2JMap := n.tag2JMap,
                         commits := s.commits.(tag2JJCommitChanMap := n.commits.tag2JJCommitChanMap,
                                               written := n.commits.written, attempts := n.commits.attempts))
  {
    assert SlotOk(SlotOf(s, tag), tag, s.arrived);
    if CommitIn(s.commits, tag) != [] {
      AttemptsAre(tag, IdsOf(CommitIn(s.commits, tag)[0]), oks);
      hide AttemptsFor;
      hide WrittenIn;
    }
  }

  /** Those whose attempt succeeds are committed from then on, and nothing else of the files changes. */
  lemma IdsCommitted(c: Config, s: State, tag: Tag, oks: seq<bool>)
    requires Inv(s) && CommitIn(s.commits, tag) != []
    ensures var n, m := Next(c, s, WriteIds(tag, oks)), CommitIn(s.commits, tag)[0];
      var ids := [m.id] + m.extIds;
      && (forall id :: id in Ids(n, tag)
            <==> id in Ids(s, tag) || exists i :: 0 <= i < |ids| && i < |oks| && oks[i] && ids[i] == id)
      && (forall t :: t != tag ==> Ids(n, t) == Ids(s, t))
      && (forall t :: Data(n, t) == Data(s, t) && Legacy(n, t) == Legacy(s, t) && Loading(n, t) == Loading(s, t))
  {
    assert SlotOk(SlotOf(s, tag), tag, s.arrived);
    WrittenAre(tag, IdsOf(CommitIn(s.commits, tag)[0]), oks);
    hide AttemptsFor;
    hide WrittenIn;
  }

  lemma {:induction false} AttemptsAre(tag: Tag, ids: seq<int>, oks: seq<bool>)
    ensures |AttemptsFor(tag, ids, oks)| == |ids|
    ensures forall i :: 0 <= i < |ids| ==>
              AttemptsFor(tag, ids, oks)[i] == Attempt(tag, ids[i], i < |oks| && oks[i])
    decreases |ids|
  {
    if ids != [] { AttemptsAre(tag, ids[..|ids| - 1], oks); }
  }

  lemma WrittenAre(tag: Tag, ids: seq<int>, oks: seq<bool>)
    ensures forall id :: id in WrittenIn(AttemptsFor(tag, ids, oks))
                <==> exists i :: 0 <= i < |ids| && i < |oks| && oks[i] && ids[i] == id
  {
    AttemptsAre(tag, ids, oks);
    var attempts := AttemptsFor(tag, ids, oks);
    hide AttemptsFor;
    forall id ensures id in WrittenIn(attempts) <==> exists i :: 0 <= i < |ids| && i < |oks| && oks[i] && ids[i] == id {
      if i :| 0 <= i < |ids| && i < |oks| && oks[i] && ids[i] == id {
        assert attempts[i].ok && attempts[i].id == id;
      }
    }
  }
}
