/** Live copies of messages in the journal: none vanishes and none is doubled on the way from dumpChan to outChan. */
module JournalCopies {
  import opened JournalMachine
  import opened JournalProof
  import opened JournalCommits

  function Inchan(s: State, tag: Tag): seq<Entry> {
    if tag in s.tag2JJInchanMap then s.tag2JJInchanMap[tag] else []
  }

  function InHand(s: State, e: Entry): nat {
    if e.tag in s.writers && s.writers[e.tag] == e then 1 else 0
  }

  ghost predicate Balance(s: State, e: Entry) {
    s.book.given[e] == multiset(s.dumpChan)[e] + multiset(Inchan(s, e.tag))[e] + InHand(s, e)
                     + s.book.passed[e] + s.book.recycled[e]
  }

  ghost predicate Balanced(s: State) {
    forall e :: Balance(s, e)
  }

  lemma SameBalance(s: State, n: State, e: Entry)
    requires Balance(s, e) && n.book == s.book && n.dumpChan == s.dumpChan
    requires Inchan(n, e.tag) == Inchan(s, e.tag) && InHand(n, e) == InHand(s, e)
    ensures Balance(n, e)
  {
  }

  lemma GaveBalance(s: State, x: Entry, e: Entry)
    requires Balance(s, e)
    ensures Balance(s.(dumpChan := s.dumpChan + [x], book := Gave(s.book, x)), e)
  {
    LastOf(s.dumpChan, x, e);
  }

  lemma CreateBalance(s: State, tag: Tag, e: Entry)
    requires Inv(s) && Balance(s, e)
    ensures Balance(Create(s, tag), e)
  {
    assert SlotOk(SlotOf(s, tag), tag, s.arrived);
    assert Inchan(Create(s, tag), e.tag) == Inchan(s, e.tag);
  }

  /** `x` has been moved along, or has left: the copies of each message are still accounted for. */
  lemma DumpedBalance(c: Config, s: State, e: Entry)
    requires s.dumpChan != [] && s.dumpChan[0].tag in s.tag2JJInchanMap && Balance(s, e)
    ensures Balance(Dumped(c, s.(dumpChan := s.dumpChan[1..]), s.dumpChan[0]), e)
  {
    var x, q := s.dumpChan[0], s.tag2JJInchanMap[s.dumpChan[0].tag];
    var n := Dumped(c, s.(dumpChan := s.dumpChan[1..]), x);
    HeadOf(s.dumpChan, e);
    LastOf(q, x, e);
    assert n.dumpChan == s.dumpChan[1..] && n.book.given == s.book.given && InHand(n, e) == InHand(s, e);
    DumpedOut(c, s.(dumpChan := s.dumpChan[1..]), x, e);
  }

  lemma DumpedOut(c: Config, s: State, x: Entry, e: Entry)
    requires x.tag in s.tag2JJInchanMap
    ensures var n := Dumped(c, s, x);
      multiset(Inchan(n, e.tag))[e] + n.book.passed[e] + n.book.recycled[e]
      == multiset(Inchan(s, e.tag))[e] + s.book.passed[e] + s.book.recycled[e] + if x == e then 1 else 0
  {
    LastOf(s.tag2JJInchanMap[x.tag], x, e);
  }

  lemma DumpBalance(c: Config, s: State, e: Entry)
    requires Inv(s) && Balance(s, e)
    ensures Balance(Next(c, s, Dump), e)
  {
    hide Inv;
    hide Dumped;
    hide Balance;
    if s.dumpChan != [] {
      CreateBalance(s, s.dumpChan[0].tag, e);
      CreateKept(s, s.dumpChan[0].tag);
      DumpedBalance(c, Create(s, s.dumpChan[0].tag), e);
    }
  }

  /** The dumper gives up a message for good iff both its journal and the way out are busy. Then no copy of that turn is
      left: not in a channel, not in a log. */
  lemma DropsIffBusy(c: Config, s: State)
    requires Inv(s) && s.dumpChan != []
    ensures var e := s.dumpChan[0]; var n := Next(c, s, Dump);
      && (n.book.recycled[e] == s.book.recycled[e] + 1
          <==> |Inchan(s, e.tag)| >= c.childDataLen && |s.outChan| >= c.outLen)
      && (n.book.recycled[e] == s.book.recycled[e] + 1 ==>
            && n.dumpChan == s.dumpChan[1..] && n.outChan == s.outChan && Inchan(n, e.tag) == Inchan(s, e.tag)
            && (Logged(n, e) ==> Logged(s, e)) && e in n.dropped)
  {
    hide Inv;
    var e := s.dumpChan[0];
    var was := Create(s, e.tag).(dumpChan := s.dumpChan[1..]);
    KeptInchan(s, e.tag);
    CreateLeaves(s, e);
    DumpedBusy(c, was, e);
    hide Create;
    hide Dumped;
    assert Next(c, s, Dump) == Dumped(c, was, e);
    assert (s.book.recycled + multiset{e})[e] == s.book.recycled[e] + 1;
  }

  lemma DumpedBusy(c: Config, s: State, x: Entry)
    requires x.tag in s.tag2JJInchanMap
    ensures var n := Dumped(c, s, x); var busy := |Inchan(s, x.tag)| >= c.childDataLen && |s.outChan| >= c.outLen;
      && n.book.recycled == (if busy then s.book.recycled + multiset{x} else s.book.recycled)
      && (busy ==> n == s.(dropped := s.dropped + {x}, book := Left(s.book, x, false)))
  {
  }

  lemma CreateLeaves(s: State, e: Entry)
    ensures var n := Create(s, e.tag); n.book == s.book && n.outChan == s.outChan && (Logged(n, e) ==> Logged(s, e))
  {
  }

  lemma KeptInchan(s: State, tag: Tag)
    requires Inv(s)
    ensures Inchan(Create(s, tag), tag) == Inchan(s, tag)
    ensures tag in Create(s, tag).tag2JJInchanMap
  {
    assert SlotOk(SlotOf(s, tag), tag, s.arrived);
  }

  lemma TakeBalance(c: Config, s: State, tag: Tag, e: Entry)
    requires Inv(s) && Balance(s, e)
    ensures Balance(Next(c, s, TakeData(tag)), e)
  {
    assert SlotOk(SlotOf(s, tag), tag, s.arrived);
    if tag in s.tag2JJInchanMap && s.tag2JJInchanMap[tag] != [] && tag !in s.writers {
      var q := s.tag2JJInchanMap[tag];
      assert q[0] in q && q[0].tag == tag;
      HeadOf(q, e);
      var n := Next(c, s, TakeData(tag));
      assert Inchan(n, e.tag) == if e.tag == tag then q[1..] else Inchan(s, e.tag);
    }
  }

  lemma WriteBalance(c: Config, s: State, tag: Tag, oks: seq<bool>, e: Entry)
    requires Inv(s) && Balance(s, e)
    ensures Balance(Next(c, s, WriteData(tag, oks)), e)
  {
    assert SlotOk(SlotOf(s, tag), tag, s.arrived);
    if tag in s.writers && tag in s.tag2JMap {
      assert s.writers[tag].tag == tag;
      var n := Next(c, s, WriteData(tag, oks));
      assert Inchan(n, e.tag) == Inchan(s, e.tag) && n.dumpChan == s.dumpChan;
      assert InHand(n, e) == if s.writers[tag] == e then 0 else InHand(s, e);
    }
  }

  ghost predicate Quiet(a: Action) {
    a.Consume? || a.StartPass? || a.LoadNext? || a.Submit? || a.WriteIds?
  }

  lemma QuietLoads(c: Config, s: State, a: Action)
    requires a.StartPass? || a.LoadNext?
    ensures var n := Next(c, s, a);
      n.book == s.book && n.dumpChan == s.dumpChan && n.tag2JJInchanMap == s.tag2JJInchanMap && n.writers == s.writers
  {
    hide Next;
    PassFrame(c, s, a);
  }

  lemma QuietOthers(c: Config, s: State, a: Action)
    requires a.Consume? || a.Submit? || a.WriteIds?
    ensures var n := Next(c, s, a);
      n.book == s.book && n.dumpChan == s.dumpChan && n.tag2JJInchanMap == s.tag2JJInchanMap && n.writers == s.writers
  {
    hide AttemptsFor;
    hide WrittenIn;
  }

  lemma QuietBalance(c: Config, s: State, a: Action, e: Entry)
    requires Quiet(a) && Balance(s, e)
    ensures Balance(Next(c, s, a), e)
  {
    hide Balance;
    hide Next;
    if a.StartPass? || a.LoadNext? { QuietLoads(c, s, a); } else { QuietOthers(c, s, a); }
    SameBalance(s, Next(c, s, a), e);
  }

  lemma NextBalanced(c: Config, s: State, a: Action)
    requires Inv(s) && Balanced(s)
    ensures Balanced(Next(c, s, a))
  {
    hide Inv;
    hide Next;
    forall e ensures Balance(Next(c, s, a), e) {
      assert Balance(s, e);
      hide Balance;
      if Quiet(a) {
        QuietBalance(c, s, a, e);
      } else {
        match a
        case Arrive(x) => ArriveBalance(c, s, x, e);
        case Dump => DumpBalance(c, s, e);
        case TakeData(tag) => TakeBalance(c, s, tag, e);
        case WriteData(tag, oks) => WriteBalance(c, s, tag, oks, e);
        case PushBack(tag) => PushBackBalance(c, s, tag, e);
        case RunCommit(full) => RunCommitBalance(c, s, full, e);
      }
    }
  }

  lemma ArriveBalance(c: Config, s: State, x: Entry, e: Entry)
    requires Balance(s, e)
    ensures Balance(Next(c, s, Arrive(x)), e)
  {
    GaveBalance(s, x, e);
  }

  lemma PushBackBalance(c: Config, s: State, tag: Tag, e: Entry)
    requires Balance(s, e)
    ensures Balance(Next(c, s, PushBack(tag)), e)
  {
    if tag in s.loaders { GaveBalance(s, s.loaders[tag], e); }
  }

  lemma RunCommitBalance(c: Config, s: State, full: bool, e: Entry)
    requires Inv(s) && Balance(s, e)
    ensures Balance(Next(c, s, RunCommit(full)), e)
  {
    hide Inv;
    hide Committing;
    hide Popped;
    if s.commits.commitChan != [] {
      var s' := Create(s, s.commits.commitChan[0].tag);
      CreateBalance(s, s.commits.commitChan[0].tag, e);
      hide Create;
      hide Inchan;
      if s.commits.commitChan[0].tag in s'.commits.tag2JJCommitChanMap {
        SameBalance(s', Next(c, s, RunCommit(full)), e);
      }
    }
  }

  /** After every run and for every message: as often as it entered dumpChan, from the acceptors or a legacy loader, it
      waits there or at its data writer, is in the writer's hand, has gone out or has been given back to the pool. */
  lemma {:induction false} CopiesConserved(c: Config, acts: seq<Action>)
    ensures var s := Run(c, acts);
      forall e :: s.book.given[e] == multiset(s.dumpChan)[e] + multiset(Inchan(s, e.tag))[e] + InHand(s, e)
                                   + s.book.passed[e] + s.book.recycled[e]
    decreases |acts|
  {
    hide Next;
    if acts != [] {
      var front := acts[..|acts| - 1];
      CopiesConserved(c, front);
      Always(c, front);
      assert Balanced(Run(c, front));
      NextBalanced(c, Run(c, front), acts[|acts| - 1]);
    }
    forall e
      ensures var s := Run(c, acts);
              s.book.given[e] == multiset(s.dumpChan)[e] + multiset(Inchan(s, e.tag))[e] + InHand(s, e)
                               + s.book.passed[e] + s.book.recycled[e]
    {
      assert Balance(Run(c, acts), e);
    }
  }
}
