/** The batch, flush and retry loops of the Elasticsearch sender and of the fluentd child sender.
    A send attempt either succeeds or fails; `fails` is the number of attempts in a row that fail
    from the start of a flush on. Clock readings and the dry-run setting come with each input. */
module SenderBatch {
  // The identity of a message object: both loops only move pointers.
  type Msg = nat

  datatype Event = Arrive(msg: Msg) | Tick

  datatype Input = Input(event: Event, now: int, flushNow: int, dry: bool, fails: nat)

  // One delivery: every message of it gets the same outcome.
  datatype Flush = Flush(msgs: seq<Msg>, ok: bool, attempts: nat)

  datatype State = State(pending: seq<Msg>, lastT: int)

  // `limit` is how many attempts a flush gets before its messages are failed.
  datatype Config = Config(batchSize: nat, maxWait: int, limit: nat)

  const ES_ATTEMPTS: nat := 4
  const FLUENTD_ATTEMPTS: nat := 3

  /** What a flush of `msgs` reports. */
  function Deliver(c: Config, msgs: seq<Msg>, x: Input): Flush {
    if x.dry then Flush(msgs, true, 0)
    else if x.fails < c.limit then Flush(msgs, true, x.fails + 1)
    else Flush(msgs, false, c.limit)
  }

  /** One turn of the loop: what stays in the batch and the flush it makes, if any. */
  function Turn(c: Config, s: State, x: Input): (State, seq<Flush>) {
    var pending := if x.event.Arrive? then s.pending + [x.event.msg] else s.pending;
    if x.event.Tick? && pending == [] then (s, [])
    else if |pending| < c.batchSize && x.now - s.lastT < c.maxWait then (State(pending, s.lastT), [])
    else (State([], x.flushNow), [Deliver(c, pending, x)])
  }

  /** How many connections the flush of one turn gives up. */
  function Failures(fs: seq<Flush>): nat {
    if fs != [] && !fs[0].ok then 1 else 0
  }

  function Turns(c: Config, ins: seq<Input>): (State, seq<Flush>) {
    if ins == [] then (State([], 0), [])
    else
      var (s, fs) := Turns(c, ins[..|ins| - 1]);
      var (s', fs') := Turn(c, s, ins[|ins| - 1]);
      (s', fs + fs')
  }

  function Received(ins: seq<Input>): seq<Msg> {
    if ins == [] then []
    else
      var last := ins[|ins| - 1].event;
      Received(ins[..|ins| - 1]) + if last.Arrive? then [last.msg] else []
  }

  function Report(msgs: seq<Msg>, ok: bool): seq<(Msg, bool)> {
    if msgs == [] then [] else Report(msgs[..|msgs| - 1], ok) + [(msgs[|msgs| - 1], ok)]
  }

  /** Everything put on successedChan and failedChan, in order. */
  function Outcomes(fs: seq<Flush>): seq<(Msg, bool)> {
    if fs == [] then []
    else Outcomes(fs[..|fs| - 1]) + Report(fs[|fs| - 1].msgs, fs[|fs| - 1].ok)
  }

  function Firsts(os: seq<(Msg, bool)>): seq<Msg> {
    if os == [] then [] else Firsts(os[..|os| - 1]) + [os[|os| - 1].0]
  }

  function Sent(fs: seq<Flush>): seq<Msg> {
    if fs == [] then [] else Sent(fs[..|fs| - 1]) + fs[|fs| - 1].msgs
  }

  lemma OutcomesSnoc(fs: seq<Flush>, f: Flush)
    ensures Outcomes(fs + [f]) == Outcomes(fs) + Report(f.msgs, f.ok)
  {
    assert (fs + [f])[..|fs|] == fs;
  }

  lemma SentSnoc(fs: seq<Flush>, f: Flush)
    ensures Sent(fs + [f]) == Sent(fs) + f.msgs
  {
    assert (fs + [f])[..|fs|] == fs;
  }

  lemma FirstsSnoc(os: seq<(Msg, bool)>, o: (Msg, bool))
    ensures Firsts(os + [o]) == Firsts(os) + [o.0]
  {
    assert (os + [o])[..|os|] == os;
  }

  lemma {:induction false} FirstsAppend(os: seq<(Msg, bool)>, msgs: seq<Msg>, ok: bool)
    ensures Firsts(os + Report(msgs, ok)) == Firsts(os) + msgs
  {
    if msgs == [] {
      assert os + Report(msgs, ok) == os;
      assert Firsts(os) + [] == Firsts(os);
    } else {
      var n := |msgs| - 1;
      FirstsAppend(os, msgs[..n], ok);
      FirstsSnoc(os + Report(msgs[..n], ok), (msgs[n], ok));
      assert os + Report(msgs, ok) == os + Report(msgs[..n], ok) + [(msgs[n], ok)];
      assert Firsts(os) + msgs[..n] + [msgs[n]] == Firsts(os) + msgs;
    }
  }

  lemma {:induction false} OutcomesNameWhatWasSent(fs: seq<Flush>)
    ensures Firsts(Outcomes(fs)) == Sent(fs)
  {
    if fs != [] {
      var n := |fs| - 1;
      OutcomesNameWhatWasSent(fs[..n]);
      FirstsAppend(Outcomes(fs[..n]), fs[n].msgs, fs[n].ok);
    }
  }

  /** Every received message yields exactly one outcome, in the order received, except the fewer
      than batchSize messages that are still in the batch. */
  lemma {:induction false} OneOutcomeEach(c: Config, ins: seq<Input>)
    requires c.batchSize >= 1
    ensures |Turns(c, ins).0.pending| < c.batchSize
    ensures Sent(Turns(c, ins).1) + Turns(c, ins).0.pending == Received(ins)
  {
    if ins != [] {
      var front, last := ins[..|ins| - 1], ins[|ins| - 1];
      OneOutcomeEach(c, front);
      TurnConserves(c, Turns(c, front).0, Turns(c, front).1, last);
    }
  }

  lemma TurnConserves(c: Config, s: State, fs: seq<Flush>, x: Input)
    requires c.batchSize >= 1 && |s.pending| < c.batchSize
    ensures |Turn(c, s, x).0.pending| < c.batchSize
    ensures Sent(fs + Turn(c, s, x).1) + Turn(c, s, x).0.pending
      == Sent(fs) + s.pending + if x.event.Arrive? then [x.event.msg] else []
  {
    var t := Turn(c, s, x);
    var arrived := if x.event.Arrive? then [x.event.msg] else [];
    var pending := s.pending + arrived;
    assert Sent(fs) + s.pending + arrived == Sent(fs) + pending;
    if t.1 == [] {
      assert fs + t.1 == fs;
      assert t.0.pending == pending;
    } else {
      assert t.1[0].msgs == pending && t.0.pending == [];
      SentSnoc(fs, t.1[0]);
      assert t.1 == [t.1[0]];
      assert Sent(fs) + pending + [] == Sent(fs) + pending;
    }
  }

  /** A failed flush used up all its attempts, no flush uses more, and no flush is empty or too big. */
  ghost predicate WellMade(c: Config, f: Flush) {
    && 1 <= |f.msgs| <= c.batchSize
    && f.attempts <= c.limit
    && (!f.ok ==> f.attempts == c.limit)
  }

  lemma {:induction false} FlushesWellMade(c: Config, ins: seq<Input>)
    requires c.batchSize >= 1
    ensures forall f :: f in Turns(c, ins).1 ==> WellMade(c, f)
  {
    if ins != [] {
      FlushesWellMade(c, ins[..|ins| - 1]);
      OneOutcomeEach(c, ins[..|ins| - 1]);
    }
  }

  /** No message is held back: a turn that keeps messages did so with room left in the batch and
      less than maxWait on the clock since the last flush. */
  lemma {:induction false} HeldOnlyBriefly(c: Config, ins: seq<Input>)
    requires c.batchSize >= 1 && ins != []
    requires Turns(c, ins).0.pending != []
    ensures var s := Turns(c, ins).0;
            |s.pending| < c.batchSize && ins[|ins| - 1].now - s.lastT < c.maxWait
  {
    OneOutcomeEach(c, ins[..|ins| - 1]);
  }

  /** The outcomes of a run, then what is in the batch, are what was received. */
  lemma RunConserves(c: Config, ins: seq<Input>)
    requires c.batchSize >= 1
    ensures Firsts(Outcomes(Turns(c, ins).1)) + Turns(c, ins).0.pending == Received(ins)
  {
    OneOutcomeEach(c, ins);
    OutcomesNameWhatWasSent(Turns(c, ins).1);
  }

  // ---- What each input does ----

  /** The clock at the last flush: that of the last input that made one. */
  function LastFlush(c: Config, ins: seq<Input>): int {
    if ins == [] then 0
    else
      var front := ins[..|ins| - 1];
      if |Turns(c, ins).1| > |Turns(c, front).1| then ins[|ins| - 1].flushNow else LastFlush(c, front)
  }

  lemma {:induction false} LastFlushIs(c: Config, ins: seq<Input>)
    ensures Turns(c, ins).0.lastT == LastFlush(c, ins)
    decreases |ins|
  {
    if ins != [] { LastFlushIs(c, ins[..|ins| - 1]); }
  }

  function Arrived(x: Input): seq<Msg> {
    if x.event.Arrive? then [x.event.msg] else []
  }

  lemma TurnDoes(c: Config, s: State, x: Input)
    requires c.batchSize >= 1
    ensures var waiting, fs := s.pending + Arrived(x), Turn(c, s, x).1;
      if waiting != [] && (|waiting| >= c.batchSize || x.now - s.lastT >= c.maxWait) then
        && |fs| == 1 && fs[0].msgs == waiting
        && (fs[0].ok <==> x.dry || x.fails < c.limit)
        && fs[0].attempts == (if x.dry then 0 else if x.fails < c.limit then x.fails + 1 else c.limit)
      else fs == []
  {
  }

  lemma LastTurn(c: Config, front: seq<Input>, x: Input)
    ensures Turns(c, front + [x]).1 == Turns(c, front).1 + Turn(c, Turns(c, front).0, x).1
    ensures Received(front + [x]) == Received(front) + Arrived(x)
  {
    hide Turn;
    assert (front + [x])[..|front|] == front;
  }

  /** A turn flushes just what has no outcome yet, and does so iff there is something and it fills the batch or has
      waited long enough since the last flush. The flush is a success iff nothing is really sent or one of the first
      `limit` attempts succeeds, and it makes just as many as that takes. */
  lemma InputDoes(c: Config, front: seq<Input>, x: Input)
    requires c.batchSize >= 1
    ensures var fs, fs' := Turns(c, front).1, Turns(c, front + [x]).1;
      && |Sent(fs)| <= |Received(front + [x])|
      && var waiting := Received(front + [x])[|Sent(fs)|..];
         if waiting != [] && (|waiting| >= c.batchSize || x.now - LastFlush(c, front) >= c.maxWait) then
           && |fs'| == |fs| + 1 && fs == fs'[..|fs|] && fs'[|fs|].msgs == waiting
           && (fs'[|fs|].ok <==> x.dry || x.fails < c.limit)
           && fs'[|fs|].attempts == (if x.dry then 0 else if x.fails < c.limit then x.fails + 1 else c.limit)
         else fs' == fs
  {
    OneOutcomeEach(c, front);
    LastFlushIs(c, front);
    LastTurn(c, front, x);
    var s, fs := Turns(c, front).0, Turns(c, front).1;
    TurnDoes(c, s, x);
    hide *;
    Rest(Sent(fs), s.pending, Arrived(x));
    OneMore(fs, Turn(c, s, x).1);
  }

  lemma Rest(a: seq<Msg>, b: seq<Msg>, d: seq<Msg>)
    ensures (a + b + d)[|a|..] == b + d
  {
  }

  lemma OneMore(fs: seq<Flush>, more: seq<Flush>)
    requires |more| <= 1
    ensures fs + [] == fs && fs <= fs + more && (more != [] ==> (fs + more)[|fs|] == more[0])
  {
  }

  /** Outcome `j` came with input `i`. */
  ghost predicate AnsweredAt(c: Config, ins: seq<Input>, i: nat, j: nat)
    requires i < |ins|
  {
    |Sent(Turns(c, ins[..i]).1)| <= j < |Sent(Turns(c, ins[..i + 1]).1)|
  }

  /** Outcome `j` is that of the message received as number `j`, and a success iff the input it came with did not really
      send, or one of its first `limit` attempts succeeded. */
  ghost predicate RightOutcome(c: Config, ins: seq<Input>, j: nat, o: (Msg, bool)) {
    && j < |Received(ins)| && o.0 == Received(ins)[j]
    && exists i: nat :: i < |ins| && AnsweredAt(c, ins, i, j) && (o.1 <==> ins[i].dry || ins[i].fails < c.limit)
  }

  lemma {:induction false} ReportAt(msgs: seq<Msg>, ok: bool)
    ensures |Report(msgs, ok)| == |msgs|
    ensures forall k :: 0 <= k < |msgs| ==> Report(msgs, ok)[k] == (msgs[k], ok)
    decreases |msgs|
  {
    if msgs != [] { ReportAt(msgs[..|msgs| - 1], ok); }
  }

  lemma {:induction false} AsManyOutcomes(fs: seq<Flush>)
    ensures |Outcomes(fs)| == |Sent(fs)|
    decreases |fs|
  {
    if fs != [] {
      AsManyOutcomes(fs[..|fs| - 1]);
      ReportAt(fs[|fs| - 1].msgs, fs[|fs| - 1].ok);
    }
  }

  /** Every outcome of every run is the right one. */
  lemma {:induction false} OutcomesRight(c: Config, ins: seq<Input>)
    requires c.batchSize >= 1
    ensures var os := Outcomes(Turns(c, ins).1);
      forall j :: 0 <= j < |os| ==> RightOutcome(c, ins, j, os[j])
    decreases |ins|
  {
    if ins != [] {
      var front, x := ins[..|ins| - 1], ins[|ins| - 1];
      assert ins == front + [x];
      var fs, fs' := Turns(c, front).1, Turns(c, ins).1;
      OutcomesRight(c, front);
      InputDoes(c, front, x);
      OneOutcomeEach(c, front);
      hide Turns;
      var os, os' := Outcomes(fs), Outcomes(fs');
      AsManyOutcomes(fs);
      forall j | 0 <= j < |os'| ensures RightOutcome(c, ins, j, os'[j]) {
        if fs' != fs {
          assert fs' == fs + [fs'[|fs|]];
          OutcomesSnoc(fs, fs'[|fs|]);
          SentSnoc(fs, fs'[|fs|]);
          ReportAt(fs'[|fs|].msgs, fs'[|fs|].ok);
        }
        if j < |os| {
          OutcomeStands(c, front, x, j, os[j]);
        } else {
          NewOutcome(c, front, x, j, os'[j]);
        }
      }
    }
  }

  lemma OutcomeStands(c: Config, front: seq<Input>, x: Input, j: nat, o: (Msg, bool))
    requires RightOutcome(c, front, j, o)
    ensures RightOutcome(c, front + [x], j, o)
  {
    hide Turns;
    var ins := front + [x];
    assert ins[..|front|] == front;
    var i: nat :| i < |front| && AnsweredAt(c, front, i, j) && (o.1 <==> front[i].dry || front[i].fails < c.limit);
    assert ins[..i] == front[..i] && ins[..i + 1] == front[..i + 1];
    assert AnsweredAt(c, ins, i, j) && ins[i] == front[i];
  }

  lemma NewOutcome(c: Config, front: seq<Input>, x: Input, j: nat, o: (Msg, bool))
    requires |Sent(Turns(c, front).1)| <= j < |Sent(Turns(c, front + [x]).1)|
    requires j < |Received(front + [x])| && o.0 == Received(front + [x])[j]
    requires o.1 <==> x.dry || x.fails < c.limit
    ensures RightOutcome(c, front + [x], j, o)
  {
    hide Turns;
    var ins := front + [x];
    assert ins[..|front|] == front && ins[..|front| + 1] == ins;
    assert AnsweredAt(c, ins, |front|, j);
  }

  /** How many flushes fail. */
  function AllFailures(fs: seq<Flush>): nat {
    if fs == [] then 0 else AllFailures(fs[..|fs| - 1]) + Failures([fs[|fs| - 1]])
  }

  lemma FailuresSnoc(fs: seq<Flush>, more: seq<Flush>)
    requires |more| <= 1
    ensures AllFailures(fs + more) == AllFailures(fs) + Failures(more)
  {
    if more == [] {
      assert fs + more == fs;
    } else {
      assert (fs + more)[..|fs|] == fs && more == [more[0]];
    }
  }

  lemma {:induction false} FailuresCount(fs: seq<Flush>)
    ensures AllFailures(fs) == |set k | 0 <= k < |fs| && !fs[k].ok|
    decreases |fs|
  {
    if fs != [] {
      var front := fs[..|fs| - 1];
      FailuresCount(front);
      var a := set k | 0 <= k < |front| && !front[k].ok;
      var b := set k | 0 <= k < |fs| && !fs[k].ok;
      assert b == if fs[|fs| - 1].ok then a else a + {|front|};
    }
  }

  /** The channels every sender reports to: successedChan and failedChan, as one log of outcomes. */
  class OutcomeChans {
    var outcomes: seq<(Msg, bool)>
    ghost var flushes: seq<Flush>

    ghost predicate Valid()
      reads this
    {
      outcomes == Outcomes(flushes)
    }

    constructor ()
      ensures Valid() && flushes == []
    {
      outcomes, flushes := [], [];
    }

    /** Hands the outcome of a delivery to the producer, message by message. */
    method Put(delivery: seq<Msg>, ok: bool, ghost attempts: nat)
      requires Valid()
      modifies this
      ensures Valid() && flushes == old(flushes) + [Flush(delivery, ok, attempts)]
    {
      for k := 0 to |delivery|
        invariant outcomes == old(outcomes) + Report(delivery[..k], ok)
        invariant flushes == old(flushes)
      {
        assert delivery[..k + 1][..k] == delivery[..k];
        outcomes := outcomes + [(delivery[k], ok)];
      }
      assert delivery[..|delivery|] == delivery;
      OutcomesSnoc(flushes, Flush(delivery, ok, attempts));
      flushes := flushes + [Flush(delivery, ok, attempts)];
    }
  }

  /** The batch array that both loops fill, and when it was last emptied. */
  class Batch {
    const batchSize: nat
    const maxWait: int
    const msgBatch: array<Msg>
    var iBatch: nat
    var lastT: int

    ghost predicate Valid()
      reads this`iBatch
    {
      batchSize >= 1 && msgBatch.Length == batchSize && iBatch < batchSize
    }

    ghost function View(): State
      requires iBatch <= msgBatch.Length
      reads this, msgBatch
    {
      State(msgBatch[..iBatch], lastT)
    }

    constructor (size: nat, wait: int)
      requires size >= 1
      ensures Valid() && View() == State([], 0) && fresh(msgBatch) && batchSize == size && maxWait == wait
    {
      batchSize, maxWait, msgBatch := size, wait, new Msg[size];
      iBatch, lastT := 0, 0;
    }

    /** The select: a message is put in, and the batch is taken out if it is full or has waited long enough; otherwise
        there is no delivery. */
    method Take(x: Input, ghost c: Config) returns (delivery: seq<Msg>)
      requires Valid() && c.batchSize == batchSize && c.maxWait == maxWait
      modifies this, msgBatch
      ensures Valid() && View() == Turn(c, old(View()), x).0
      ensures Turn(c, old(View()), x).1 == if delivery == [] then [] else [Deliver(c, delivery, x)]
    {
      ghost var was := View();
      match x.event {
        case Arrive(msg) =>
          msgBatch[iBatch] := msg;
          iBatch := iBatch + 1;
          assert msgBatch[..iBatch] == was.pending + [msg];
        case Tick =>
          if iBatch == 0 {
            return [];
          }
      }
      if iBatch < batchSize && x.now - lastT < maxWait {
        return [];
      }
      lastT := x.flushNow;
      delivery := msgBatch[..iBatch];
      iBatch := 0;
    }
  }

  class ElasticSearchSender {
    const batch: Batch
    const chans: OutcomeChans

    ghost predicate Valid()
      reads batch, chans
    {
      batch.Valid() && chans.Valid()
    }

    ghost function Cfg(): Config {
      Config(batch.batchSize, batch.maxWait, ES_ATTEMPTS)
    }

    constructor (size: nat, wait: int, out: OutcomeChans)
      requires size >= 1 && out.Valid()
      ensures Valid() && batch.View() == State([], 0) && chans == out && fresh(batch) && fresh(batch.msgBatch)
      ensures Cfg() == Config(size, wait, ES_ATTEMPTS)
    {
      batch := new Batch(size, wait);
      chans := out;
    }

    /** One turn of the select loop. */
    method Handle(x: Input)
      requires Valid()
      modifies batch, batch.msgBatch, chans
      ensures Valid()
      ensures batch.View() == Turn(Cfg(), old(batch.View()), x).0
      ensures chans.flushes == old(chans.flushes) + Turn(Cfg(), old(batch.View()), x).1
    {
      var delivery := batch.Take(x, Cfg());
      if delivery == [] {
        return;
      }
      if x.dry {
        chans.Put(delivery, true, 0);
        return;
      }
      var ok, attempts := Send(x.fails);
      chans.Put(delivery, ok, attempts);
    }

    /** The retry loop: the first attempt and up to three retries. */
    method Send(fails: nat) returns (ok: bool, attempts: nat)
      ensures ok <==> fails < 4
      ensures attempts == if ok then fails + 1 else 4
    {
      var maxRetry, nRetry := 3, 0;
      attempts := 0;
      while true
        invariant 0 <= nRetry == attempts <= maxRetry && attempts <= fails
        decreases maxRetry - nRetry
      {
        attempts := attempts + 1;
        if attempts <= fails {
          nRetry := nRetry + 1;
          if nRetry > maxRetry {
            return false, attempts;
          }
          continue;
        }
        break;
      }
      ok := true;
    }

    method Run(ins: seq<Input>)
      requires Valid() && batch.View() == State([], 0) && chans.flushes == []
      modifies batch, batch.msgBatch, chans
      ensures Valid()
      ensures (batch.View(), chans.flushes) == Turns(Cfg(), ins)
      ensures Firsts(chans.outcomes) + batch.View().pending == Received(ins)
      ensures var c := Config(batch.batchSize, batch.maxWait, 4);
        forall j :: 0 <= j < |chans.outcomes| ==> RightOutcome(c, ins, j, chans.outcomes[j])
    {
      for k := 0 to |ins|
        invariant Valid() && (batch.View(), chans.flushes) == Turns(Cfg(), ins[..k])
      {
        assert ins[..k + 1][..k] == ins[..k];
        Handle(ins[k]);
      }
      assert ins[..|ins|] == ins;
      RunConserves(Cfg(), ins);
      OutcomesRight(Cfg(), ins);
    }
  }

  class FluentChildSender {
    const batch: Batch
    const chans: OutcomeChans
    var connections: nat

    ghost predicate Valid()
      reads batch, chans
    {
      batch.Valid() && chans.Valid()
    }

    ghost function Cfg(): Config {
      Config(batch.batchSize, batch.maxWait, FLUENTD_ATTEMPTS)
    }

    constructor (size: nat, wait: int, out: OutcomeChans)
      requires size >= 1 && out.Valid()
      ensures Valid() && batch.View() == State([], 0) && chans == out && fresh(batch) && fresh(batch.msgBatch)
      ensures Cfg() == Config(size, wait, FLUENTD_ATTEMPTS) && connections == 1
    {
      batch := new Batch(size, wait);
      chans, connections := out, 1;
    }

    /** One turn of the inner loop; a flush that fails three times closes the connection, and the
        outer loop opens a new one without touching the batch. */
    method Handle(x: Input)
      requires Valid()
      modifies this`connections, batch, batch.msgBatch, chans
      ensures Valid()
      ensures batch.View() == Turn(Cfg(), old(batch.View()), x).0
      ensures chans.flushes == old(chans.flushes) + Turn(Cfg(), old(batch.View()), x).1
      ensures connections == old(connections) + Failures(Turn(Cfg(), old(batch.View()), x).1)
    {
      var delivery := batch.Take(x, Cfg());
      if delivery == [] {
        return;
      }
      var ok, attempts := true, 0;
      if !x.dry {
        ok, attempts := Send(x.fails);
      }
      chans.Put(delivery, ok, attempts);
      if !ok {
        connections := connections + 1;
      }
    }

    /** The retry loop: three attempts in all. */
    method Send(fails: nat) returns (ok: bool, attempts: nat)
      ensures ok <==> fails < 3
      ensures attempts == if ok then fails + 1 else 3
    {
      var maxRetry, nRetry := 3, 0;
      attempts := 0;
      while true
        invariant 0 <= nRetry == attempts < maxRetry && attempts <= fails
        decreases maxRetry - nRetry
      {
        attempts := attempts + 1;
        if attempts <= fails {
          nRetry := nRetry + 1;
          if nRetry >= maxRetry {
            return false, attempts;
          }
          continue;
        }
        break;
      }
      ok := true;
    }

    method Run(ins: seq<Input>)
      requires Valid() && batch.View() == State([], 0) && chans.flushes == []
      modifies this`connections, batch, batch.msgBatch, chans
      ensures Valid()
      ensures (batch.View(), chans.flushes) == Turns(Cfg(), ins)
      ensures Firsts(chans.outcomes) + batch.View().pending == Received(ins)
      ensures var c := Config(batch.batchSize, batch.maxWait, 3);
        forall j :: 0 <= j < |chans.outcomes| ==> RightOutcome(c, ins, j, chans.outcomes[j])
      ensures connections == old(connections) + |set k | 0 <= k < |chans.flushes| && !chans.flushes[k].ok|
    {
      for k := 0 to |ins|
        invariant Valid() && (batch.View(), chans.flushes) == Turns(Cfg(), ins[..k])
        invariant connections == old(connections) + AllFailures(chans.flushes)
      {
        assert ins[..k + 1][..k] == ins[..k];
        FailuresSnoc(chans.flushes, Turn(Cfg(), batch.View(), ins[k]).1);
        Handle(ins[k]);
      }
      assert ins[..|ins|] == ins;
      RunConserves(Cfg(), ins);
      OutcomesRight(Cfg(), ins);
      FailuresCount(chans.flushes);
    }
  }
}
