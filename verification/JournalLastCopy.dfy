/** Messages of which the journal keeps no copy: that what is gone stays gone, and exactly which steps let go the last
    copy. */
module JournalLastCopy {
  import opened Options

  import opened JournalMachine
  import opened JournalCopies
  import opened JournalProof

  /** No copy of it is left anywhere: not in a log, not on its way into one, not on its way out. */
  ghost predicate Absent(s: State, e: Entry) {
    !Logged(s, e) && !OnItsWay(s, e) && e !in s.outChan
  }

  // ---- What is lost stays lost ----

  ghost predicate Missing(x: Slot, e: Entry) {
    && (x.files.Some? ==> e !in x.files.value.data && e !in x.files.value.legacy)
    && (x.inchan.Some? ==> e !in x.inchan.value)
    && x.writer != Some(e) && x.loader != Some(e)
  }

  lemma DumpAbsent(c: Config, s: State, e: Entry)
    requires Absent(s, e)
    ensures Absent(Next(c, s, Dump), e)
  {
    if s.dumpChan != [] {
      var x := s.dumpChan[0];
      assert x != e && e !in s.dumpChan[1..];
      CreateAbsent(s, x.tag, e);
      hide Create;
      var s' := Create(s, x.tag);
      if x.tag in s'.tag2JJInchanMap { DumpedAbsent(c, s'.(dumpChan := s.dumpChan[1..]), x, e); }
    }
  }

  lemma CreateAbsent(s: State, tag: Tag, e: Entry)
    requires Absent(s, e)
    ensures Absent(Create(s, tag), e)
    ensures Create(s, tag).dumpChan == s.dumpChan
  {
  }

  lemma DumpedAbsent(c: Config, s: State, x: Entry, e: Entry)
    requires x.tag in s.tag2JJInchanMap && x != e && Absent(s, e)
    ensures Absent(Dumped(c, s, x), e)
  {
  }

  lemma WriteAbsent(c: Config, s: State, tag: Tag, oks: seq<bool>, e: Entry)
    requires Absent(s, e) && Inv(s)
    ensures Absent(Next(c, s, WriteData(tag, oks)), e)
  {
    assert SlotOk(SlotOf(s, tag), tag, s.arrived);
  }

  lemma LoadAbsent(c: Config, s: State, a: Action, e: Entry)
    requires Absent(s, e) && Inv(s) && (a.StartPass? || a.LoadNext?)
    ensures Absent(Next(c, s, a), e)
  {
    hide Next;
    PassFrame(c, s, a);
    assert SlotOk(SlotOf(s, a.tag), a.tag, s.arrived);
    LoadSlot(c, s, a, e);
    hide SlotOk;
  }

  lemma LoadSlot(c: Config, s: State, a: Action, e: Entry)
    requires (a.StartPass? || a.LoadNext?) && Missing(SlotOf(s, e.tag), e) && SlotOk(SlotOf(s, a.tag), a.tag, s.arrived)
    ensures Missing(SlotOf(Next(c, s, a), e.tag), e)
  {
    if a.LoadNext? && a.tag in s.tag2JMap {
      hide SlotOk;
      LoadedSlot(s, a.tag, e);
      hide NextLoaded;
    }
  }

  lemma LoadedSlot(s: State, tag: Tag, e: Entry)
    requires tag in s.tag2JMap && Missing(SlotOf(s, e.tag), e)
    requires forall x :: x in s.tag2JMap[tag].legacy ==> x.tag == tag
    ensures Missing(SlotOf(NextLoaded(s, tag), e.tag), e)
  {
    if e.tag != tag {
      LoadNextFrame(s, tag);
    } else {
      OwnLoaded(s, tag, e);
    }
  }

  lemma OwnLoaded(s: State, tag: Tag, e: Entry)
    requires tag in s.tag2JMap && Missing(SlotOf(s, tag), e) && e.tag == tag
    ensures Missing(SlotOf(NextLoaded(s, tag), tag), e)
  {
    var q := s.tag2JMap[tag].legacy;
    if q != [] { assert q[0] in q && forall x :: x in q[1..] ==> x in q; }
  }

  lemma MoveAbsent(c: Config, s: State, a: Action, e: Entry)
    requires Absent(s, e) && Inv(s) && a != Arrive(e) && (a.Arrive? || a.TakeData? || a.Consume? || a.PushBack?)
    ensures Absent(Next(c, s, a), e)
  {
    if a.TakeData? || a.PushBack? { assert SlotOk(SlotOf(s, a.tag), a.tag, s.arrived); }
  }

  lemma CommitAbsent(c: Config, s: State, a: Action, e: Entry)
    requires Absent(s, e) && (a.Submit? || a.RunCommit? || a.WriteIds?)
    ensures Absent(Next(c, s, a), e)
  {
    hide AttemptsFor;
    hide WrittenIn;
    hide Committing;
    if a.RunCommit? && s.commits.commitChan != [] {
      CreateAbsent(s, s.commits.commitChan[0].tag, e);
      hide Create;
    }
  }

  /** The message arrives, and there is room for it. */
  ghost predicate Enters(c: Config, s: State, a: Action, e: Entry) {
    a == Arrive(e) && |s.dumpChan| < c.dumpLen
  }

  lemma NextAbsent(c: Config, s: State, a: Action, e: Entry)
    requires Absent(s, e) && Inv(s) && !Enters(c, s, a, e)
    ensures Absent(Next(c, s, a), e)
  {
    hide Inv;
    hide Absent;
    if a == Arrive(e) {
      return;
    }
    hide Next;
    if a.Dump? {
      DumpAbsent(c, s, e);
    } else if a.WriteData? {
      WriteAbsent(c, s, a.tag, a.oks, e);
    } else if a.StartPass? || a.LoadNext? {
      LoadAbsent(c, s, a, e);
    } else if a.Submit? || a.RunCommit? || a.WriteIds? {
      CommitAbsent(c, s, a, e);
    } else {
      MoveAbsent(c, s, a, e);
    }
  }

  /** From the i-th action of a run on, the message does not enter. */
  ghost predicate NoEntry(c: Config, acts: seq<Action>, i: nat, e: Entry) {
    forall j :: i <= j < |acts| ==> !Enters(c, Run(c, acts[..j]), acts[j], e)
  }

  lemma RunLast(c: Config, acts: seq<Action>)
    requires acts != []
    ensures Run(c, acts) == Next(c, Run(c, acts[..|acts| - 1]), acts[|acts| - 1])
  {
    hide Next;
  }

  /** A message of which no copy is left does not come back by itself. */
  lemma {:induction false} StaysGone(c: Config, acts: seq<Action>, i: nat, e: Entry)
    requires i <= |acts| && Absent(Run(c, acts[..i]), e) && NoEntry(c, acts, i, e)
    ensures Absent(Run(c, acts), e)
    decreases |acts|
  {
    hide Run;
    hide Absent;
    if i == |acts| {
      assert acts[..i] == acts;
    } else {
      var n := |acts| - 1;
      var front := acts[..n];
      assert front[..i] == acts[..i];
      assert forall j :: i <= j < n ==> front[..j] == acts[..j];
      StaysGone(c, front, i, e);
      Always(c, front);
      assert !Enters(c, Run(c, acts[..n]), acts[n], e);
      NextAbsent(c, Run(c, front), acts[n], e);
      RunLast(c, acts);
    }
  }

  /** Whatever the journal does from then on, and for however long, there is no copy until the message arrives anew. */
  lemma NeverComesBack(c: Config, before: seq<Action>, after: seq<Action>, e: Entry)
    requires Absent(Run(c, before), e) && Arrive(e) !in after
    ensures Absent(RunFrom(c, Run(c, before), after), e)
  {
    hide Absent;
    var acts := before + after;
    assert acts[..|before|] == before;
    assert forall j :: |before| <= j < |acts| ==> acts[j] == after[j - |before|];
    RunJoined(c, Init(), before, after);
    hide Run;
    hide RunFrom;
    StaysGone(c, acts, |before|, e);
  }

  // ---- The steps that let go the last copy ----

  /** Without the head of dumpChan, the message in a writer's hand, the head of outChan, the next entry of a pass. */
  function WithoutDump(s: State): State
    requires s.dumpChan != []
  {
    s.(dumpChan := s.dumpChan[1..])
  }

  function WithoutWriter(s: State, tag: Tag): State {
    s.(writers := s.writers - {tag})
  }

  function WithoutOut(s: State): State
    requires s.outChan != []
  {
    s.(outChan := s.outChan[1..])
  }

  function WithoutLegacy(s: State, tag: Tag): State
    requires tag in s.tag2JMap && s.tag2JMap[tag].legacy != []
  {
    var files := s.tag2JMap[tag];
    s.(tag2JMap := s.tag2JMap[tag := files.(legacy := files.legacy[1..])])
  }

  /** The dumper has it and finds both channels full; or the data writer has it, no attempt to write it succeeds and the
      way out is full; or it is taken off the way out; or a legacy pass leaves it out since its id is committed. And
      there is no other copy. */
  ghost predicate Vanishes(c: Config, s: State, a: Action, e: Entry) {
    match a
    case Dump =>
      && s.dumpChan != [] && s.dumpChan[0] == e
      && |Inchan(s, e.tag)| >= c.childDataLen && |s.outChan| >= c.outLen
      && Absent(WithoutDump(s), e)
    case WriteData(tag, oks) =>
      && tag in s.writers && s.writers[tag] == e && !Succeeds(oks) && |s.outChan| >= c.outLen
      && Absent(WithoutWriter(s, tag), e)
    case Consume => s.outChan != [] && s.outChan[0] == e && Absent(WithoutOut(s), e)
    case LoadNext(tag) =>
      && tag in s.tag2JMap && s.tag2JMap[tag].loading && tag !in s.loaders
      && s.tag2JMap[tag].legacy != [] && s.tag2JMap[tag].legacy[0] == e && e.id in s.tag2JMap[tag].loaded
      && Absent(WithoutLegacy(s, tag), e)
    case _ => false
  }

  lemma DumpVanishes(c: Config, s: State, e: Entry)
    requires Inv(s) && !Absent(s, e)
    ensures Absent(Next(c, s, Dump), e) <==> Vanishes(c, s, Dump, e)
  {
    if s.dumpChan != [] {
      var x := s.dumpChan[0];
      var was := Create(WithoutDump(s), x.tag);
      assert s.dumpChan == [x] + s.dumpChan[1..];
      KeptInchan(s, x.tag);
      assert SlotOk(SlotOf(s, x.tag), x.tag, s.arrived);
      CreateSame(WithoutDump(s), x.tag, e);
      assert was == Create(s, x.tag).(dumpChan := s.dumpChan[1..]);
      hide Create;
      hide Inv;
      if x.tag in was.tag2JJInchanMap { DumpedVanishes(c, was, x, e); }
    }
  }

  lemma CreateSame(s: State, tag: Tag, e: Entry)
    requires tag in s.tag2JJInchanMap ==> tag in s.tag2JMap
    ensures Absent(Create(s, tag), e) <==> Absent(s, e)
    ensures Create(s, tag).outChan == s.outChan
  {
  }

  lemma DumpedVanishes(c: Config, s: State, x: Entry, e: Entry)
    requires x.tag in s.tag2JJInchanMap
    ensures Absent(Dumped(c, s, x), e)
       <==> Absent(s, e) && (x == e ==> |Inchan(s, x.tag)| >= c.childDataLen && |s.outChan| >= c.outLen)
  {
  }

  lemma WriteVanishes(c: Config, s: State, tag: Tag, oks: seq<bool>, e: Entry)
    requires Inv(s) && !Absent(s, e)
    ensures Absent(Next(c, s, WriteData(tag, oks)), e) <==> Vanishes(c, s, WriteData(tag, oks), e)
  {
    assert SlotOk(SlotOf(s, tag), tag, s.arrived);
  }

  lemma ConsumeVanishes(c: Config, s: State, e: Entry)
    requires !Absent(s, e)
    ensures Absent(Next(c, s, Consume), e) <==> Vanishes(c, s, Consume, e)
  {
    if s.outChan != [] { assert s.outChan == [s.outChan[0]] + s.outChan[1..]; }
  }

  lemma LoadVanishes(c: Config, s: State, tag: Tag, e: Entry)
    requires Inv(s) && !Absent(s, e)
    ensures Absent(Next(c, s, LoadNext(tag)), e) <==> Vanishes(c, s, LoadNext(tag), e)
  {
    assert SlotOk(SlotOf(s, tag), tag, s.arrived);
    if tag in s.tag2JMap && s.tag2JMap[tag].legacy != [] {
      var q := s.tag2JMap[tag].legacy;
      assert q == [q[0]] + q[1..] && q[0] in q;
    }
  }

  lemma StartKeeps(c: Config, s: State, tag: Tag, loaded: set<int>, e: Entry)
    requires !Absent(s, e)
    ensures !Absent(Next(c, s, StartPass(tag, loaded)), e)
  {
  }

  lemma MoveKeeps(c: Config, s: State, a: Action, e: Entry)
    requires Inv(s) && !Absent(s, e) && (a.Arrive? || a.TakeData? || a.PushBack?)
    ensures !Absent(Next(c, s, a), e)
  {
    if a.TakeData? {
      assert SlotOk(SlotOf(s, a.tag), a.tag, s.arrived);
      if a.tag in s.tag2JJInchanMap && s.tag2JJInchanMap[a.tag] != [] {
        var q := s.tag2JJInchanMap[a.tag];
        assert q == [q[0]] + q[1..] && q[0] in q;
      }
    }
    if a.PushBack? { assert SlotOk(SlotOf(s, a.tag), a.tag, s.arrived); }
  }

  lemma CommitKeeps(c: Config, s: State, a: Action, e: Entry)
    requires Inv(s) && !Absent(s, e) && (a.Submit? || a.RunCommit? || a.WriteIds?)
    ensures !Absent(Next(c, s, a), e)
  {
    hide AttemptsFor;
    hide WrittenIn;
    hide Committing;
    if a.RunCommit? && s.commits.commitChan != [] {
      var tag := s.commits.commitChan[0].tag;
      assert SlotOk(SlotOf(s, tag), tag, s.arrived);
      CreateSame(s, tag, e);
      hide Create;
    }
  }

  /** Which step lets go the last copy of a message. */
  lemma LastCopyIff(c: Config, s: State, a: Action, e: Entry)
    requires Inv(s) && !Absent(s, e)
    ensures Absent(Next(c, s, a), e) <==> Vanishes(c, s, a, e)
  {
    hide Inv;
    hide Absent;
    hide Next;
    match a
    case Dump => DumpVanishes(c, s, e);
    case WriteData(tag, oks) => WriteVanishes(c, s, tag, oks, e);
    case Consume => ConsumeVanishes(c, s, e);
    case LoadNext(tag) => LoadVanishes(c, s, tag, e);
    case StartPass(tag, loaded) => StartKeeps(c, s, tag, loaded, e);
    case Arrive(_) => MoveKeeps(c, s, a, e);
    case TakeData(_) => MoveKeeps(c, s, a, e);
    case PushBack(_) => MoveKeeps(c, s, a, e);
    case Submit(_) => CommitKeeps(c, s, a, e);
    case RunCommit(_) => CommitKeeps(c, s, a, e);
    case WriteIds(_, _) => CommitKeeps(c, s, a, e);
  }

  /** The step gives it to the dispatcher, or a pass leaves it out since its id is committed. */
  ghost predicate Served(s: State, a: Action, e: Entry) {
    (a == Consume && s.outChan != [] && s.outChan[0] == e) || (a.LoadNext? && Committed(s, e))
  }

  lemma VanishesHow(c: Config, s: State, a: Action, e: Entry)
    requires Inv(s) && Vanishes(c, s, a, e)
    ensures a.Dump? || a.WriteData? || Served(s, a, e)
  {
    if a.LoadNext? { assert SlotOk(SlotOf(s, a.tag), a.tag, s.arrived); }
  }

  // ---- Whole runs ----

  /** The i-th action of a run lets go the last copy, and the message has not entered again since. */
  ghost predicate GoneAt(c: Config, acts: seq<Action>, i: int, e: Entry) {
    && 0 <= i < |acts| && !Absent(Run(c, acts[..i]), e) && Vanishes(c, Run(c, acts[..i]), acts[i], e)
    && NoEntry(c, acts, i + 1, e)
  }

  lemma PresentArrived(c: Config, acts: seq<Action>, e: Entry)
    requires !Absent(Run(c, acts), e)
    ensures e in Run(c, acts).arrived
  {
    hide Run;
    JournalNeverForgets(c, acts);
  }

  lemma NextArrived(c: Config, s: State, a: Action)
    ensures Next(c, s, a).arrived == s.arrived + if a.Arrive? && Enters(c, s, a, a.e) then {a.e} else {}
  {
    hide AttemptsFor;
    hide WrittenIn;
    hide Committing;
    hide Popped;
    hide Left;
  }

  lemma EntersPresent(c: Config, s: State, a: Action, e: Entry)
    requires Enters(c, s, a, e)
    ensures !Absent(Next(c, s, a), e)
  {
    assert Next(c, s, a).dumpChan == s.dumpChan + [e];
  }

  lemma {:induction false} ArrivedStays(c: Config, acts: seq<Action>, i: nat)
    requires i <= |acts|
    ensures Run(c, acts[..i]).arrived <= Run(c, acts).arrived
    decreases |acts|
  {
    hide Run;
    hide Next;
    if i == |acts| {
      assert acts[..i] == acts;
    } else {
      var front := acts[..|acts| - 1];
      assert front[..i] == acts[..i];
      ArrivedStays(c, front, i);
      RunLast(c, acts);
      NextArrived(c, Run(c, front), acts[|acts| - 1]);
    }
  }

  /** What is gone after a run went in one of its steps. */
  lemma {:induction false} GoneSomewhere(c: Config, acts: seq<Action>, e: Entry) returns (i: nat)
    requires e in Run(c, acts).arrived && Absent(Run(c, acts), e)
    ensures GoneAt(c, acts, i, e)
    decreases |acts|
  {
    hide Run;
    hide Next;
    hide Absent;
    hide Vanishes;
    hide Enters;
    i := 0;
    if acts == [] {
      NothingArrived(c);
      assert false;
    }
    var n := |acts| - 1;
    var front, a := acts[..n], acts[n];
    var s := Run(c, front);
    RunLast(c, acts);
    Always(c, front);
    if !Absent(s, e) {
      LastCopyIff(c, s, a, e);
      i := n;
    } else {
      if Enters(c, s, a, e) { EntersPresent(c, s, a, e); }
      NextArrived(c, s, a);
      assert a.Arrive? && Enters(c, s, a, a.e) ==> a.e != e;
      i := GoneSomewhere(c, front, e);
      assert forall j :: 0 <= j <= n ==> front[..if j < n then j else n] == acts[..j];
      ExtendGone(c, acts, i, e);
    }
  }

  lemma ExtendGone(c: Config, acts: seq<Action>, i: nat, e: Entry)
    requires acts != [] && GoneAt(c, acts[..|acts| - 1], i, e)
    requires !Enters(c, Run(c, acts[..|acts| - 1]), acts[|acts| - 1], e)
    ensures GoneAt(c, acts, i, e)
  {
    hide Run;
    hide Absent;
    hide Vanishes;
    hide Enters;
    var n := |acts| - 1;
    var front := acts[..n];
    assert front[..i] == acts[..i];
    forall j | i + 1 <= j < |acts| ensures !Enters(c, Run(c, acts[..j]), acts[j], e) {
      if j < n {
        assert front[..j] == acts[..j] && front[j] == acts[j];
      }
    }
  }

  lemma NothingArrived(c: Config)
    ensures Run(c, []).arrived == {}
  {
  }

  lemma GoneIsAbsent(c: Config, acts: seq<Action>, i: nat, k: nat, e: Entry)
    requires GoneAt(c, acts, i, e) && i < k <= |acts|
    ensures Absent(Run(c, acts[..k]), e)
  {
    hide Run;
    hide Next;
    hide Absent;
    hide Vanishes;
    hide Enters;
    var upTo := acts[..i + 1];
    assert upTo[..i] == acts[..i];
    RunLast(c, upTo);
    Always(c, acts[..i]);
    LastCopyIff(c, Run(c, acts[..i]), acts[i], e);
    var part := acts[..k];
    assert part[..i + 1] == upTo;
    forall j | i + 1 <= j < k ensures !Enters(c, Run(c, part[..j]), part[j], e) {
      assert part[..j] == acts[..j];
    }
    StaysGone(c, part, i + 1, e);
  }

  /** For every run and every message: no copy is left of what did arrive iff one step of the run, and just one, let go
      the last copy and the message has not entered since. Unless that step gave it to the dispatcher, or a pass left it
      out since its id was committed, it was the dumper that found both channels full, or the data writer that could not
      write it while the way out was full. */
  lemma GoneIff(c: Config, acts: seq<Action>, e: Entry)
    ensures e in Run(c, acts).arrived && Absent(Run(c, acts), e) <==> exists i :: GoneAt(c, acts, i, e)
    ensures forall i, j :: GoneAt(c, acts, i, e) && GoneAt(c, acts, j, e) ==> i == j
    ensures forall i :: GoneAt(c, acts, i, e) ==>
              acts[i].Dump? || acts[i].WriteData? || Served(Run(c, acts[..i]), acts[i], e)
  {
    hide Run;
    hide Absent;
    hide Vanishes;
    hide NoEntry;
    if e in Run(c, acts).arrived && Absent(Run(c, acts), e) {
      var i := GoneSomewhere(c, acts, e);
    }
    forall i | GoneAt(c, acts, i, e)
      ensures e in Run(c, acts).arrived && Absent(Run(c, acts), e)
      ensures acts[i].Dump? || acts[i].WriteData? || Served(Run(c, acts[..i]), acts[i], e)
    {
      GoneIsAbsent(c, acts, i, |acts|, e);
      assert acts[..|acts|] == acts;
      PresentArrived(c, acts[..i], e);
      ArrivedStays(c, acts, i);
      Always(c, acts[..i]);
      VanishesHow(c, Run(c, acts[..i]), acts[i], e);
    }
    forall i, j | GoneAt(c, acts, i, e) && GoneAt(c, acts, j, e) ensures i == j {
      if i < j { GoneIsAbsent(c, acts, i, j, e); }
      if j < i { GoneIsAbsent(c, acts, j, i, e); }
    }
  }
}
