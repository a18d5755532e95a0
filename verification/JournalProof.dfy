/** The journal never forgets: what it was given stays in the log, or on its way into it, until its id is committed. */
module JournalProof {
  import opened Options
  import opened JournalMachine

  /** All that the journal has for one tag. */
  datatype Slot = Slot(
    files: Option<Files>,
    inchan: Option<seq<Entry>>,
    commitIn: Option<seq<Commit>>,
    writer: Option<Entry>,
    loader: Option<Entry>)

  function SlotOf(s: State, tag: Tag): Slot {
    Slot(Get(s.tag2JMap, tag), Get(s.tag2JJInchanMap, tag), Get(s.commits.tag2JJCommitChanMap, tag),
         Get(s.writers, tag), Get(s.loaders, tag))
  }

  ghost predicate Fine(es: seq<Entry>, tag: Tag, arrived: set<Entry>) {
    forall e :: e in es ==> e.tag == tag && e in arrived
  }

  ghost predicate FineOne(e: Option<Entry>, tag: Tag, arrived: set<Entry>) {
    e.Some? ==> e.value.tag == tag && e.value in arrived
  }

  /** The journal and the channels of a tag come together, and hold messages of that tag that did arrive. */
  ghost predicate SlotOk(x: Slot, tag: Tag, arrived: set<Entry>) {
    match x.files
    case None => x == Slot(None, None, None, None, None)
    case Some(files) =>
      && x.inchan.Some? && x.commitIn.Some?
      && Fine(files.data, tag, arrived) && Fine(files.legacy, tag, arrived) && Fine(x.inchan.value, tag, arrived)
      && FineOne(x.writer, tag, arrived) && FineOne(x.loader, tag, arrived)
      && files.loaded <= files.ids
  }

  ghost predicate Keeps(x: Slot, e: Entry) {
    || (x.files.Some? && (e.id in x.files.value.ids || e in x.files.value.data || e in x.files.value.legacy))
    || (x.inchan.Some? && e in x.inchan.value)
    || x.writer == Some(e) || x.loader == Some(e)
  }

  ghost predicate Kept(s: State, e: Entry) {
    e in s.dumpChan || LetGo(s, e) || Keeps(SlotOf(s, e.tag), e)
  }

  ghost predicate Within(es: seq<Entry>, arrived: set<Entry>) {
    forall e :: e in es ==> e in arrived
  }

  ghost predicate Inv(s: State) {
    && (forall tag :: SlotOk(SlotOf(s, tag), tag, s.arrived))
    && Within(s.dumpChan, s.arrived) && Within(s.outChan, s.arrived)
    && (forall e :: e in s.arrived ==> Kept(s, e))
  }

  // ---- A step changes the slot of one tag ----

  ghost predicate LessLetGo(s: State, s': State) {
    s.unwritten <= s'.unwritten && s.bypassed <= s'.bypassed && s.dropped <= s'.dropped
  }

  lemma OneSlot(s: State, s': State, t: Tag)
    requires Inv(s) && s'.arrived == s.arrived && LessLetGo(s, s')
    requires forall tag :: tag != t ==> SlotOf(s', tag) == SlotOf(s, tag)
    requires SlotOk(SlotOf(s', t), t, s.arrived)
    requires Within(s'.dumpChan, s.arrived) && Within(s'.outChan, s.arrived)
    requires forall e :: e in s.dumpChan ==> Kept(s', e)
    requires forall e: Entry :: e.tag == t && Keeps(SlotOf(s, t), e) ==> Kept(s', e)
    ensures Inv(s')
  {
    hide SlotOk;
    hide Keeps;
    forall e | e in s'.arrived ensures Kept(s', e) {
      assert Kept(s, e);
      if e.tag != t { assert SlotOf(s', e.tag) == SlotOf(s, e.tag); }
    }
    forall tag ensures SlotOk(SlotOf(s', tag), tag, s'.arrived) {
      assert SlotOk(SlotOf(s, tag), tag, s.arrived);
    }
  }

  lemma CreateKept(s: State, tag: Tag)
    requires Inv(s)
    ensures Inv(Create(s, tag)) && tag in Create(s, tag).tag2JMap
    ensures SlotOf(Create(s, tag), tag).inchan.Some? && SlotOf(Create(s, tag), tag).commitIn.Some?
  {
    assert SlotOk(SlotOf(s, tag), tag, s.arrived);
    if tag !in s.tag2JMap { OneSlot(s, Create(s, tag), tag); }
  }

  lemma ArriveKept(c: Config, s: State, e: Entry)
    requires Inv(s)
    ensures Inv(Next(c, s, Arrive(e)))
  {
    hide LetGo;
    var n := Next(c, s, Arrive(e));
    if |s.dumpChan| < c.dumpLen {
      forall tag ensures SlotOk(SlotOf(n, tag), tag, n.arrived) {
        assert SlotOk(SlotOf(s, tag), tag, s.arrived);
        assert SlotOf(n, tag) == SlotOf(s, tag);
      }
      ArrivedKept(s, e);
    }
  }

  lemma ArrivedKept(s: State, e: Entry)
    requires Inv(s)
    ensures var n := s.(dumpChan := s.dumpChan + [e], arrived := s.arrived + {e}, book := Gave(s.book, e));
            forall x :: x in n.arrived ==> Kept(n, x)
  {
    hide Keeps;
    hide SlotOk;
    var n := s.(dumpChan := s.dumpChan + [e], arrived := s.arrived + {e}, book := Gave(s.book, e));
    forall x | x in n.arrived ensures Kept(n, x) {
      assert SlotOf(n, x.tag) == SlotOf(s, x.tag);
      if x in s.arrived { assert Kept(s, x); }
    }
  }

  /** The dumper: the head of dumpChan goes to the slot of its tag, or is let go and booked as such. */
  lemma DumpedKept(c: Config, s: State, e: Entry, rest: seq<Entry>)
    requires Inv(s) && s.dumpChan == [e] + rest && e.tag in s.tag2JJInchanMap && e.tag in s.tag2JMap
    ensures Inv(Dumped(c, s.(dumpChan := rest), e))
  {
    hide SlotOk;
    var n := Dumped(c, s.(dumpChan := rest), e);
    assert e in s.dumpChan;
    DumpedSlot(c, s, e, rest);
    assert Kept(n, e);
    forall x | x in s.dumpChan ensures Kept(n, x) {
      assert x == e || x in rest;
    }
    OneSlot(s, n, e.tag);
  }

  lemma DumpedSlot(c: Config, s: State, e: Entry, rest: seq<Entry>)
    requires Inv(s) && e in s.arrived && e.tag in s.tag2JJInchanMap && e.tag in s.tag2JMap
    ensures SlotOk(SlotOf(Dumped(c, s.(dumpChan := rest), e), e.tag), e.tag, s.arrived)
  {
    assert SlotOk(SlotOf(s, e.tag), e.tag, s.arrived);
  }

  lemma DumpKept(c: Config, s: State)
    requires Inv(s)
    ensures Inv(Next(c, s, Dump))
  {
    hide Inv;
    if s.dumpChan != [] {
      var e, rest := s.dumpChan[0], s.dumpChan[1..];
      CreateKept(s, e.tag);
      assert Create(s, e.tag).dumpChan == [e] + rest;
      DumpedKept(c, Create(s, e.tag), e, rest);
    }
  }

  lemma TakeDataKept(c: Config, s: State, tag: Tag)
    requires Inv(s)
    ensures Inv(Next(c, s, TakeData(tag)))
  {
    var n := Next(c, s, TakeData(tag));
    assert SlotOk(SlotOf(s, tag), tag, s.arrived);
    if tag in s.tag2JJInchanMap && s.tag2JJInchanMap[tag] != [] && tag !in s.writers {
      var q := s.tag2JJInchanMap[tag];
      assert q == [q[0]] + q[1..];
      assert q[0] in q;
      OneSlot(s, n, tag);
    }
  }

  lemma WriteDataKept(c: Config, s: State, tag: Tag, oks: seq<bool>)
    requires Inv(s)
    ensures Inv(Next(c, s, WriteData(tag, oks)))
  {
    var n := Next(c, s, WriteData(tag, oks));
    assert SlotOk(SlotOf(s, tag), tag, s.arrived);
    if tag in s.writers && tag in s.tag2JMap {
      OneSlot(s, n, tag);
    }
  }

  lemma StartPassKept(c: Config, s: State, tag: Tag, loaded: set<int>)
    requires Inv(s)
    ensures Inv(Next(c, s, StartPass(tag, loaded)))
  {
    assert SlotOk(SlotOf(s, tag), tag, s.arrived);
    OneSlot(s, Next(c, s, StartPass(tag, loaded)), tag);
  }

  /** A step of a legacy pass changes files and what the loaders have in hand, and nothing else. */
  lemma PassFrame(c: Config, s: State, a: Action)
    requires a.StartPass? || a.LoadNext?
    ensures Next(c, s, a) == s.(tag2JMap := Next(c, s, a).tag2JMap, loaders := Next(c, s, a).loaders)
  {
  }

  lemma LoadNextSlot(s: State, tag: Tag)
    requires tag in s.tag2JMap && tag !in s.loaders && SlotOk(SlotOf(s, tag), tag, s.arrived)
    ensures SlotOk(SlotOf(NextLoaded(s, tag), tag), tag, s.arrived)
  {
    var q := s.tag2JMap[tag].legacy;
    if q != [] {
      assert q[0] in q;
      assert forall e :: e in q[1..] ==> e in q;
    }
  }

  /** An entry that a pass leaves out has its id committed. */
  lemma LoadNextHolds(s: State, tag: Tag, e: Entry)
    requires tag in s.tag2JMap && tag !in s.loaders && s.tag2JMap[tag].loaded <= s.tag2JMap[tag].ids
    requires Keeps(SlotOf(s, tag), e)
    ensures Keeps(SlotOf(NextLoaded(s, tag), tag), e)
  {
    var q := s.tag2JMap[tag].legacy;
    if q != [] { assert q == [q[0]] + q[1..]; }
  }

  lemma LoadNextKept(c: Config, s: State, tag: Tag)
    requires Inv(s)
    ensures Inv(Next(c, s, LoadNext(tag)))
  {
    hide Keeps;
    hide LetGo;
    if tag in s.tag2JMap && s.tag2JMap[tag].loading && tag !in s.loaders {
      assert SlotOk(SlotOf(s, tag), tag, s.arrived);
      var n := NextLoaded(s, tag);
      LoadNextSlot(s, tag);
      LoadNextFrame(s, tag);
      forall e: Entry | e.tag == tag && Keeps(SlotOf(s, tag), e) ensures Kept(n, e) {
        LoadNextHolds(s, tag, e);
      }
      hide SlotOk;
      hide NextLoaded;
      hide SlotOf;
      OneSlot(s, n, tag);
    }
  }

  lemma LoadNextFrame(s: State, tag: Tag)
    requires tag in s.tag2JMap
    ensures var n := NextLoaded(s, tag);
      && (forall t :: t != tag ==> SlotOf(n, t) == SlotOf(s, t))
      && n.dumpChan == s.dumpChan && n.outChan == s.outChan && n.arrived == s.arrived && LessLetGo(s, n)
  {
  }

  lemma PushBackKept(c: Config, s: State, tag: Tag)
    requires Inv(s)
    ensures Inv(Next(c, s, PushBack(tag)))
  {
    assert SlotOk(SlotOf(s, tag), tag, s.arrived);
    OneSlot(s, Next(c, s, PushBack(tag)), tag);
  }

  lemma CommittingKept(c: Config, s: State, m: Commit, full: bool)
    requires Inv(s) && m.tag in s.commits.tag2JJCommitChanMap
    ensures Inv(s.(commits := Committing(c, Popped(s.commits), m, full)))
  {
    assert SlotOk(SlotOf(s, m.tag), m.tag, s.arrived);
    OneSlot(s, s.(commits := Committing(c, Popped(s.commits), m, full)), m.tag);
  }

  lemma SubmitKept(c: Config, s: State, m: Commit)
    requires Inv(s)
    ensures Inv(Next(c, s, Submit(m)))
  {
    assert SlotOk(SlotOf(s, ""), "", s.arrived);
    OneSlot(s, Next(c, s, Submit(m)), "");
  }

  lemma RunCommitKept(c: Config, s: State, full: bool)
    requires Inv(s)
    ensures Inv(Next(c, s, RunCommit(full)))
  {
    hide Inv;
    if s.commits.commitChan != [] {
      CreateKept(s, s.commits.commitChan[0].tag);
      CommittingKept(c, Create(s, s.commits.commitChan[0].tag), s.commits.commitChan[0], full);
    }
  }

  lemma WriteIdsKept(c: Config, s: State, tag: Tag, oks: seq<bool>)
    requires Inv(s)
    ensures Inv(Next(c, s, WriteIds(tag, oks)))
  {
    hide WrittenIn;
    hide AttemptsFor;
    assert SlotOk(SlotOf(s, tag), tag, s.arrived);
    OneSlot(s, Next(c, s, WriteIds(tag, oks)), tag);
  }

  lemma ConsumeKept(c: Config, s: State)
    requires Inv(s)
    ensures Inv(Next(c, s, Consume))
  {
    var n := Next(c, s, Consume);
    assert forall tag :: SlotOf(n, tag) == SlotOf(s, tag);
    assert SlotOk(SlotOf(s, ""), "", s.arrived);
    OneSlot(s, n, "");
  }

  lemma NextKept(c: Config, s: State, a: Action)
    requires Inv(s)
    ensures Inv(Next(c, s, a))
  {
    hide Inv;
    match a
    case Arrive(e) => ArriveKept(c, s, e);
    case Dump => DumpKept(c, s);
    case TakeData(tag) => TakeDataKept(c, s, tag);
    case WriteData(tag, oks) => WriteDataKept(c, s, tag, oks);
    case Consume => ConsumeKept(c, s);
    case StartPass(tag, loaded) => StartPassKept(c, s, tag, loaded);
    case LoadNext(tag) => LoadNextKept(c, s, tag);
    case PushBack(tag) => PushBackKept(c, s, tag);
    case Submit(m) => SubmitKept(c, s, m);
    case RunCommit(full) => RunCommitKept(c, s, full);
    case WriteIds(tag, oks) => WriteIdsKept(c, s, tag, oks);
  }

  lemma {:induction false} RunJoined(c: Config, s: State, a: seq<Action>, b: seq<Action>)
    ensures RunFrom(c, s, a + b) == RunFrom(c, RunFrom(c, s, a), b)
    decreases |b|
  {
    hide Next;
    if b == [] {
      assert a + b == a;
    } else {
      RunJoined(c, s, a, b[..|b| - 1]);
      assert (a + b)[..|a + b| - 1] == a + b[..|b| - 1];
    }
  }

  lemma {:induction false} Always(c: Config, acts: seq<Action>)
    ensures Inv(Run(c, acts))
    decreases |acts|
  {
    hide Next;
    if acts != [] {
      Always(c, acts[..|acts| - 1]);
      NextKept(c, Run(c, acts[..|acts| - 1]), acts[|acts| - 1]);
    }
  }

  /** After any run, whatever the journal was given is committed, in the log, or on its way into it; or it is one of
      those let go: both attempts to write it failed, or the dumper found no room. Without those nothing is ever
      forgotten. And nothing is made up: what is in the log and what goes out did arrive. */
  lemma JournalNeverForgets(c: Config, acts: seq<Action>)
    ensures var s := Run(c, acts);
      && (forall e :: e in s.arrived ==> Committed(s, e) || Logged(s, e) || OnItsWay(s, e) || LetGo(s, e))
      && (s.unwritten == {} && s.bypassed == {} && s.dropped == {} ==>
            forall e :: e in s.arrived ==> Committed(s, e) || Logged(s, e) || OnItsWay(s, e))
      && (forall e :: Logged(s, e) || OnItsWay(s, e) || e in s.outChan ==> e in s.arrived)
  {
    hide Run;
    var s := Run(c, acts);
    Always(c, acts);
    forall e | Logged(s, e) || OnItsWay(s, e) || e in s.outChan ensures e in s.arrived {
      assert SlotOk(SlotOf(s, e.tag), e.tag, s.arrived);
    }
    forall e | e in s.arrived ensures Committed(s, e) || Logged(s, e) || OnItsWay(s, e) || LetGo(s, e) {
      assert Kept(s, e);
    }
  }
}
