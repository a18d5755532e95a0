/** Two runs of the journal that lose a message for good. */
module JournalLosses {
  import opened JournalLastCopy
  import opened JournalMachine

  /** It did arrive, no copy of it is left, and nothing has committed it. */
  ghost predicate Lost(s: State, e: Entry) {
    e in s.arrived && Absent(s, e) && !Committed(s, e)
  }

  const SMALL := Config(1, 1, 1, 1, 3)
  const A := Entry("app", 1, "a")
  const B := Entry("app", 2, "b")
  const C := Entry("app", 3, "c")

  /** Three messages of one tag: the third is dropped by the dumper. */
  const BUSY_RUN := [Arrive(A), Arrive(B), Arrive(C), Dump, Dump, Dump]

  /** The way out is full, and both attempts to write the second message fail. */
  const FAILING_RUN := [Arrive(A), Dump, TakeData("app"), WriteData("app", [true]),
                        Arrive(B), Dump, TakeData("app"), WriteData("app", [false, false])]

  lemma RunHead(c: Config, s: State, acts: seq<Action>)
    requires acts != []
    ensures RunFrom(c, s, acts) == RunFrom(c, Next(c, s, acts[0]), acts[1..])
    decreases |acts|
  {
    hide Next;
    if |acts| == 1 {
      assert acts[..0] == [] && acts[1..] == [];
    } else {
      var k := |acts| - 1;
      RunHead(c, s, acts[..k]);
      assert acts[..k][1..] == acts[1..][..k - 1];
    }
  }

  /** Where the run of three stands after its dumps. */
  lemma BusyDumps(s: State)
    requires s.dumpChan == [A, B, C] && s.tag2JMap == map[] && s.tag2JJInchanMap == map[] && s.outChan == []
    requires s.loaders == map[] && s.writers == map[] && C in s.arrived
    ensures var n := Next(SMALL, Next(SMALL, Next(SMALL, s, Dump), Dump), Dump);
            Lost(n, C) && n.dropped == s.dropped + {C}
  {
    var s1 := Next(SMALL, s, Dump);
    assert s1.dumpChan == [B, C] && s1.tag2JJInchanMap["app"] == [A] && s1.outChan == [];
    assert s1.tag2JMap["app"] == Files([], [], false, {}, {}) && s1.dropped == s.dropped;
    var s2 := Next(SMALL, s1, Dump);
    assert s2.dumpChan == [C] && s2.tag2JJInchanMap == s1.tag2JJInchanMap && s2.outChan == [B];
    assert s2.tag2JMap == s1.tag2JMap && s2.dropped == s.dropped;
    var s3 := Next(SMALL, s2, Dump);
    assert s3.dumpChan == [] && s3.tag2JJInchanMap == s1.tag2JJInchanMap && s3.outChan == [B];
    assert s3.tag2JMap == s1.tag2JMap;
  }

  lemma BusyArrivals() returns (s: State)
    ensures s == Next(SMALL, Next(SMALL, Next(SMALL, Init(), Arrive(A)), Arrive(B)), Arrive(C))
    ensures s.dumpChan == [A, B, C] && s.tag2JMap == map[] && s.tag2JJInchanMap == map[] && s.outChan == []
    ensures s.loaders == map[] && s.writers == map[] && C in s.arrived && s.dropped == {}
  {
    s := Next(SMALL, Next(SMALL, Next(SMALL, Init(), Arrive(A)), Arrive(B)), Arrive(C));
  }

  lemma BusyRunLoses()
    ensures Lost(Run(SMALL, BUSY_RUN), C) && C in Run(SMALL, BUSY_RUN).dropped
  {
    hide Next;
    hide Lost;
    hide Init;
    var s := BusyArrivals();
    BusyDumps(s);
    assert BUSY_RUN[1..] == [Arrive(B), Arrive(C), Dump, Dump, Dump];
    RunHead(SMALL, Init(), BUSY_RUN);
    var s1 := Next(SMALL, Init(), Arrive(A));
    RunHead(SMALL, s1, [Arrive(B), Arrive(C), Dump, Dump, Dump]);
    var s2 := Next(SMALL, s1, Arrive(B));
    RunHead(SMALL, s2, [Arrive(C), Dump, Dump, Dump]);
    ThreeDumps(s);
  }

  lemma ThreeDumps(s: State)
    ensures RunFrom(SMALL, s, [Dump, Dump, Dump]) == Next(SMALL, Next(SMALL, Next(SMALL, s, Dump), Dump), Dump)
  {
    hide Next;
    RunHead(SMALL, s, [Dump, Dump, Dump]);
    RunHead(SMALL, Next(SMALL, s, Dump), [Dump, Dump]);
    RunHead(SMALL, Next(SMALL, Next(SMALL, s, Dump), Dump), [Dump]);
  }

  /** One message through the dumper and the data writer, with these results of its attempts. */
  function Through(s: State, e: Entry, oks: seq<bool>): State {
    Next(SMALL, Next(SMALL, Next(SMALL, Next(SMALL, s, Arrive(e)), Dump), TakeData("app")), WriteData("app", oks))
  }

  /** Nothing but files and the way out. */
  ghost predicate Rests(s: State) {
    && s.dumpChan == [] && s.loaders == map[] && s.writers == map[]
    && s.tag2JMap.Keys == s.tag2JJInchanMap.Keys
    && (forall tag :: tag in s.tag2JJInchanMap ==> s.tag2JJInchanMap[tag] == [])
  }

  lemma DumpGoes(s: State, e: Entry)
    requires Rests(s) && e.tag == "app"
    ensures var n := Next(SMALL, Next(SMALL, s, Arrive(e)), Dump);
      && n.dumpChan == [] && n.loaders == map[] && n.writers == map[] && n.outChan == s.outChan
      && n.tag2JJInchanMap == s.tag2JJInchanMap["app" := [e]] && n.arrived == s.arrived + {e}
      && n.tag2JMap == (if "app" in s.tag2JMap then s.tag2JMap
                        else s.tag2JMap["app" := Files([], [], false, {}, {})])
      && n.unwritten == s.unwritten
  {
    assert Next(SMALL, s, Arrive(e)).dumpChan == [e];
  }

  lemma TakeGoes(s: State, e: Entry)
    requires "app" in s.tag2JJInchanMap && s.tag2JJInchanMap["app"] == [e] && s.writers == map[]
    ensures Next(SMALL, s, TakeData("app"))
         == s.(tag2JJInchanMap := s.tag2JJInchanMap["app" := []], writers := map["app" := e])
  {
  }

  lemma WriteGoes(s: State, e: Entry, oks: seq<bool>)
    requires s.writers == map["app" := e] && "app" in s.tag2JMap
    ensures var n := Next(SMALL, s, WriteData("app", oks)); var f := s.tag2JMap["app"];
      && n == s.(tag2JMap := n.tag2JMap, writers := n.writers, outChan := n.outChan, unwritten := n.unwritten,
                 book := n.book)
      && n.writers == map[]
      && n.tag2JMap == s.tag2JMap["app" := if Succeeds(oks) then f.(data := f.data + [e]) else f]
      && n.outChan == (if s.outChan == [] then [e] else s.outChan)
      && n.unwritten == s.unwritten + if Succeeds(oks) then {} else {e}
  {
  }

  lemma ThroughGoes(s: State, e: Entry, oks: seq<bool>)
    requires Rests(s) && e.tag == "app"
    ensures var n := Through(s, e, oks);
      && Rests(n) && "app" in n.tag2JMap && e in n.arrived && s.arrived <= n.arrived
      && n.outChan == (if s.outChan == [] then [e] else s.outChan)
      && n.tag2JMap["app"] == (var f := if "app" in s.tag2JMap then s.tag2JMap["app"] else Files([], [], false, {}, {});
                               if Succeeds(oks) then f.(data := f.data + [e]) else f)
      && n.unwritten == s.unwritten + if Succeeds(oks) then {} else {e}
  {
    hide Next;
    DumpGoes(s, e);
    var s2 := Next(SMALL, Next(SMALL, s, Arrive(e)), Dump);
    TakeGoes(s2, e);
    WriteGoes(Next(SMALL, s2, TakeData("app")), e, oks);
  }

  lemma FailingRunLoses()
    ensures Lost(Run(SMALL, FAILING_RUN), B) && B in Run(SMALL, FAILING_RUN).unwritten
  {
    hide Through;
    hide Next;
    assert Rests(Init());
    ThroughGoes(Init(), A, [true]);
    var s := Through(Init(), A, [true]);
    ThroughGoes(s, B, [false, false]);
    FailingSteps();
  }

  lemma FailingSteps()
    ensures Run(SMALL, FAILING_RUN) == Through(Through(Init(), A, [true]), B, [false, false])
  {
    hide Through;
    hide Next;
    hide Init;
    hide RunFrom;
    var first := [Arrive(A), Dump, TakeData("app"), WriteData("app", [true])];
    var second := [Arrive(B), Dump, TakeData("app"), WriteData("app", [false, false])];
    assert FAILING_RUN == first + second && second == second + [];
    FourSteps(Init(), A, [true], second);
    var s := Through(Init(), A, [true]);
    FourSteps(s, B, [false, false], []);
    RunNone(Through(s, B, [false, false]));
  }

  lemma RunNone(s: State)
    ensures RunFrom(SMALL, s, []) == s
  {
  }

  lemma FourSteps(s: State, e: Entry, oks: seq<bool>, rest: seq<Action>)
    ensures RunFrom(SMALL, s, [Arrive(e), Dump, TakeData("app"), WriteData("app", oks)] + rest)
         == RunFrom(SMALL, Through(s, e, oks), rest)
  {
    hide Next;
    var acts := [Arrive(e), Dump, TakeData("app"), WriteData("app", oks)] + rest;
    RunHead(SMALL, s, acts);
    var s1 := Next(SMALL, s, Arrive(e));
    RunHead(SMALL, s1, acts[1..]);
    var s2 := Next(SMALL, s1, Dump);
    assert acts[1..][1..] == acts[2..];
    RunHead(SMALL, s2, acts[2..]);
    var s3 := Next(SMALL, s2, TakeData("app"));
    assert acts[2..][1..] == acts[3..];
    RunHead(SMALL, s3, acts[3..]);
    assert acts[3..][1..] == rest;
  }

  /** The documentation has every message delivered at least once. Two runs that do not keep it: nothing fails in the
      first, and in both the message is lost for good, however the journal goes on. */
  lemma LosesForGood(after: seq<Action>)
    ensures Lost(Run(SMALL, BUSY_RUN), C) && Lost(Run(SMALL, FAILING_RUN), B)
    ensures Arrive(C) !in after ==> Absent(RunFrom(SMALL, Run(SMALL, BUSY_RUN), after), C)
    ensures Arrive(B) !in after ==> Absent(RunFrom(SMALL, Run(SMALL, FAILING_RUN), after), B)
  {
    hide Run;
    BusyRunLoses();
    FailingRunLoses();
    if Arrive(C) !in after { NeverComesBack(SMALL, BUSY_RUN, after, C); }
    if Arrive(B) !in after { NeverComesBack(SMALL, FAILING_RUN, after, B); }
  }
}
