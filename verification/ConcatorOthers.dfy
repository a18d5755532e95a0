/** What becomes of each message that ProcessMsg is given: it is discarded, sent on at once, or queued for a worker, who
    sends on what is no fragment (internal/recvs/fluentd.go:344-380, 440-478). */
module ConcatorOthers {
  import opened Concator
  import opened ConcatorFanOut
  import opened Options

  // ---- One message at the entrance ----

  /** The message after the optional rewrite of its tag: only the tag, and the field that keeps it, are new. */
  predicate GoesOnAs(n: Net, r: Record, r': Record) {
    match n.rewriteKey
    case None => r' == r
    case Some(k) => IsBytes(r.fields, k, r'.tag) && r'.fields == r.fields[n.c.tagKey := Text(r'.tag)]
  }

  /** ProcessMsg discards a message iff its tag is to be rewritten from a field that is neither string nor byte slice.
      With one worker all else goes to that; with more, by the hash of the load-balancing key, and a message without one
      is sent on at once. */
  lemma SubmitDoes(n: Net, s: Sys, r: Record)
    requires n.nfork >= 1 && |s.chans| == |s.slots| == n.nfork && !s.panicked
    ensures var s' := SysStep(n, s, Submit(r));
      && s'.slots == s.slots && !s'.panicked
      && ((n.rewriteKey.Some? && forall b :: !IsBytes(r.fields, n.rewriteKey.value, b)) ==> s' == s)
      && forall r' :: GoesOnAs(n, r, r') ==>
           if n.nfork == 1 then s' == s.(chans := [s.chans[0] + [r']])
           else
             && (forall b :: IsBytes(r'.fields, n.lbKey, b) ==>
                   var w := n.hash(b) % n.nfork; s' == s.(chans := s.chans[w := s.chans[w] + [r']]))
             && ((forall b :: !IsBytes(r'.fields, n.lbKey, b)) ==> s' == s.(out := s.out + [Sent(None, r')]))
  {
    var s' := SysStep(n, s, Submit(r));
    if n.rewriteKey.Some? { BytesAtIs(r.fields, n.rewriteKey.value); }
    forall r' | GoesOnAs(n, r, r')
      ensures s' == Dispatch(n, s, r')
    {
    }
    forall r' | GoesOnAs(n, r, r') && n.nfork > 1
      ensures forall b :: IsBytes(r'.fields, n.lbKey, b) ==>
                var w := n.hash(b) % n.nfork; s' == s.(chans := s.chans[w := s.chans[w] + [r']])
      ensures (forall b :: !IsBytes(r'.fields, n.lbKey, b)) ==> s' == s.(out := s.out + [Sent(None, r')])
    {
      BytesAtIs(r'.fields, n.lbKey);
    }
  }

  // ---- All messages ----

  datatype Way =
    | Gone                             // discarded
    | AtOnce(rec: Record)              // sent on, past the workers
    | Through(w: nat, rec: Record)     // sent on by a worker
    | InPieces(w: nat)                 // a fragment for a worker

  /** What is to become of a message as it was submitted. */
  function WayOf(n: Net, r: Record): Way
    requires n.nfork >= 1
  {
    match (if n.rewriteKey == None then Some(r.tag) else BytesAt(r.fields, n.rewriteKey.value))
    case None => Gone
    case Some(tag) =>
      var fields := if n.rewriteKey == None then r.fields else r.fields[n.c.tagKey := Text(tag)];
      var lb := BytesAt(fields, n.lbKey);
      if n.nfork > 1 && lb == None then AtOnce(Record(tag, fields))
      else
        var w := if n.nfork == 1 then 0 else n.hash(lb.value) % n.nfork;
        if tag !in n.c.tags then Through(w, Record(tag, fields))
        else
          var cfg := n.c.tags[tag];
          match BytesAt(fields, cfg.msgKey)
          case None => Through(w, Record(tag, fields))
          case Some(log) =>
            if BytesAt(fields, cfg.identifierKey).Some? then InPieces(w)
            else Through(w, Record(tag, fields[cfg.msgKey := Raw(log)]))
  }

  /** The messages that worker `w` is to send on as they are, in order. */
  function ThroughWorker(n: Net, acts: seq<Action>, w: nat): seq<Record>
    requires n.nfork >= 1
  {
    if acts == [] then []
    else
      var a := acts[|acts| - 1];
      ThroughWorker(n, acts[..|acts| - 1], w)
      + if a.Submit? && WayOf(n, a.r).Through? && WayOf(n, a.r).w == w then [WayOf(n, a.r).rec] else []
  }

  /** And those that go past the workers. */
  function PastWorkers(n: Net, acts: seq<Action>): seq<Record>
    requires n.nfork >= 1
  {
    if acts == [] then []
    else
      var a := acts[|acts| - 1];
      PastWorkers(n, acts[..|acts| - 1]) + if a.Submit? && WayOf(n, a.r).AtOnce? then [WayOf(n, a.r).rec] else []
  }

  /** What a step sends on that belongs to no container. */
  function Added(n: Net, s: Sys, a: Action): seq<Record>
    requires n.nfork >= 1 && |s.chans| == |s.slots| == n.nfork
  {
    SentOf(SysStep(n, s, a).out[|s.out|..], None)
  }

  /** What worker `w` has sent on so, in order. */
  function SentBy(n: Net, acts: seq<Action>, w: nat): seq<Record>
    requires n.nfork >= 1
  {
    if acts == [] then []
    else
      var front, a := acts[..|acts| - 1], acts[|acts| - 1];
      SentBy(n, front, w) + if !a.Submit? && a.w == w then Added(n, SysRun(n, front), a) else []
  }

  /** What ProcessMsg has sent on itself. */
  function SentAtOnce(n: Net, acts: seq<Action>): seq<Record>
    requires n.nfork >= 1
  {
    if acts == [] then []
    else
      var front, a := acts[..|acts| - 1], acts[|acts| - 1];
      SentAtOnce(n, front) + if a.Submit? then Added(n, SysRun(n, front), a) else []
  }

  function PassOf(c: Config, r: Record): seq<Record> {
    match Classify(c, r) case Pass(p) => [p] case Frag(_, _) => []
  }

  /** What a channel holds that is no fragment. */
  function PassesIn(c: Config, q: seq<Record>): seq<Record> {
    if q == [] then [] else PassesIn(c, q[..|q| - 1]) + PassOf(c, q[|q| - 1])
  }

  lemma {:induction false} PassesCons(c: Config, r: Record, q: seq<Record>)
    ensures PassesIn(c, [r] + q) == PassOf(c, r) + PassesIn(c, q)
    decreases |q|
  {
    hide PassOf;
    if q == [] {
      assert [r] + q == [r] && [r][..0] == [];
    } else {
      var m := |q| - 1;
      PassesCons(c, r, q[..m]);
      assert ([r] + q)[..|q|] == [r] + q[..m];
      var first, last := PassOf(c, r), PassOf(c, q[m]);
      assert first + (PassesIn(c, q[..m]) + last) == (first + PassesIn(c, q[..m])) + last;
    }
  }

  /** A submitted message goes to the channel or out by its way. */
  lemma WayTaken(n: Net, s: Sys, r: Record)
    requires n.nfork >= 1 && |s.chans| == |s.slots| == n.nfork && !s.panicked
    ensures var s' := SysStep(n, s, Submit(r));
      match WayOf(n, r)
      case Gone => s' == s
      case AtOnce(rec) => s' == s.(out := s.out + [Sent(None, rec)])
      case Through(w, rec) =>
        w < n.nfork && exists q :: s' == s.(chans := s.chans[w := s.chans[w] + [q]]) && PassOf(n.c, q) == [rec]
      case InPieces(w) =>
        w < n.nfork && exists q :: s' == s.(chans := s.chans[w := s.chans[w] + [q]]) && PassOf(n.c, q) == []
  {
    if Retag(n, r).Some? {
      var q := Retag(n, r).value;
      WayClassified(n, r);
      hide Classify;
      match WayOf(n, r)
      case Through(w, rec) => assert SysStep(n, s, Submit(r)) == s.(chans := s.chans[w := s.chans[w] + [q]]);
      case InPieces(w) => assert SysStep(n, s, Submit(r)) == s.(chans := s.chans[w := s.chans[w] + [q]]);
      case _ =>
    }
  }

  lemma WayClassified(n: Net, r: Record)
    requires n.nfork >= 1 && Retag(n, r).Some?
    ensures var q := Retag(n, r).value;
      match WayOf(n, r)
      case Through(w, rec) => PassOf(n.c, q) == [rec]
      case InPieces(w) => PassOf(n.c, q) == []
      case AtOnce(rec) => q == rec
      case Gone => false
  {
  }

  /** A worker sends on what it takes from its channel unless that is a fragment; all else that it sends belongs to a
      container. */
  lemma WorkAdds(n: Net, s: Sys, a: Action)
    requires n.nfork >= 1 && |s.chans| == |s.slots| == n.nfork && !s.panicked
    requires !a.Submit? && !SysStep(n, s, a).panicked
    ensures Added(n, s, a)
         == if a.Work? && a.w < n.nfork && s.chans[a.w] != [] then PassOf(n.c, s.chans[a.w][0]) else []
    ensures SysStep(n, s, a).chans
         == if a.Work? && a.w < n.nfork && s.chans[a.w] != [] then s.chans[a.w := s.chans[a.w][1..]] else s.chans
  {
    hide WorkerStep;
    hide PassOf;
    assert s.out[|s.out|..] == [] && SentOf([], None) == [];
    if a.w < n.nfork && StepOf(s, a).Some? {
      var turn := WorkerStep(n.c, s.slots[a.w], StepOf(s, a).value);
      assert (s.out + turn.sent)[|s.out|..] == turn.sent;
      TurnSends(n.c, s.slots[a.w], StepOf(s, a).value);
    }
  }

  lemma TurnSends(c: Config, slots: Slots, st: Step)
    requires WorkerStep(c, slots, st).Turn?
    ensures SentOf(WorkerStep(c, slots, st).sent, None) == if st.Receive? then PassOf(c, st.rec) else []
  {
    hide Classify;
    hide Append;
    var sent := WorkerStep(c, slots, st).sent;
    if sent != [] { assert sent == [sent[0]] && sent[..0] == []; }
  }

  lemma AtOnceAdds(n: Net, s: Sys, r: Record)
    requires n.nfork >= 1 && |s.chans| == |s.slots| == n.nfork && !s.panicked
    ensures Added(n, s, Submit(r)) == match WayOf(n, r) case AtOnce(rec) => [rec] case _ => []
  {
    hide SysStep;
    hide WayOf;
    WayTaken(n, s, r);
    assert s.out[|s.out|..] == [] && SentOf([], None) == [];
    if WayOf(n, r).AtOnce? {
      assert (s.out + [Sent(None, WayOf(n, r).rec)])[|s.out|..] == [Sent(None, WayOf(n, r).rec)];
      assert [Sent(None, WayOf(n, r).rec)][..0] == [];
    }
  }

  /** Each worker sends on the messages that are no fragments in the order in which they were submitted, as they were
      (but for a log that has become a byte slice): what it has sent on, followed by what is still in its channel, is
      what was submitted for it. */
  lemma {:induction false} OthersInOrder(n: Net, acts: seq<Action>, keyOf: Bytes -> Bytes, w: nat)
    requires Balanced(n) && OneKeyEach(n, acts, keyOf) && w < n.nfork
    ensures SentBy(n, acts, w) + PassesIn(n.c, SysRun(n, acts).chans[w]) == ThroughWorker(n, acts, w)
    decreases |acts|
  {
    if acts == [] {
      assert SysRun(n, acts).chans[w] == [];
    } else {
      var front, a := acts[..|acts| - 1], acts[|acts| - 1];
      var s := SysRun(n, front);
      OthersInOrder(n, front, keyOf, w);
      Unpanicked(n, front, keyOf);
      Unpanicked(n, acts, keyOf);
      if a.Submit? {
        SubmitKeeps(n, s, a.r, w);
        Regroup(SentBy(n, front, w), PassesIn(n.c, s.chans[w]), PassesIn(n.c, SysStep(n, s, a).chans[w]), [],
                if WayOf(n, a.r).Through? && WayOf(n, a.r).w == w then [WayOf(n, a.r).rec] else []);
      } else {
        WorkKeeps(n, s, a, w);
        Regroup(SentBy(n, front, w), PassesIn(n.c, s.chans[w]), PassesIn(n.c, SysStep(n, s, a).chans[w]),
                if a.w == w then Added(n, s, a) else [], []);
      }
    }
  }

  lemma Regroup(sent: seq<Record>, was: seq<Record>, now: seq<Record>, out: seq<Record>, new_: seq<Record>)
    requires was + new_ == out + now
    ensures (sent + out) + now == (sent + was) + new_
  {
    assert (sent + out) + now == sent + (out + now);
    assert (sent + was) + new_ == sent + (was + new_);
  }

  lemma SubmitKeeps(n: Net, s: Sys, r: Record, w: nat)
    requires n.nfork >= 1 && |s.chans| == |s.slots| == n.nfork && !s.panicked && w < n.nfork
    ensures var q := PassesIn(n.c, s.chans[w]);
      q + (if WayOf(n, r).Through? && WayOf(n, r).w == w then [WayOf(n, r).rec] else [])
      == [] + PassesIn(n.c, SysStep(n, s, Submit(r)).chans[w])
  {
    hide SysStep;
    hide WayOf;
    hide PassOf;
    WayTaken(n, s, r);
    var q := PassesIn(n.c, s.chans[w]);
    assert q + [] == q;
    if (WayOf(n, r).Through? || WayOf(n, r).InPieces?) && WayOf(n, r).w == w {
      var x :| SysStep(n, s, Submit(r)) == s.(chans := s.chans[w := s.chans[w] + [x]])
            && PassOf(n.c, x) == if WayOf(n, r).Through? then [WayOf(n, r).rec] else [];
      assert (s.chans[w] + [x])[..|s.chans[w]|] == s.chans[w];
    }
  }

  lemma WorkKeeps(n: Net, s: Sys, a: Action, w: nat)
    requires n.nfork >= 1 && |s.chans| == |s.slots| == n.nfork && !s.panicked && w < n.nfork
    requires !a.Submit? && !SysStep(n, s, a).panicked
    ensures PassesIn(n.c, s.chans[w]) + []
         == (if a.w == w then Added(n, s, a) else []) + PassesIn(n.c, SysStep(n, s, a).chans[w])
  {
    hide SysStep;
    hide Added;
    hide PassOf;
    hide PassesIn;
    WorkAdds(n, s, a);
    if a.w == w && a.Work? && s.chans[w] != [] {
      assert s.chans[w] == [s.chans[w][0]] + s.chans[w][1..];
      PassesCons(n.c, s.chans[w][0], s.chans[w][1..]);
    }
  }

  lemma Unpanicked(n: Net, acts: seq<Action>, keyOf: Bytes -> Bytes)
    requires Balanced(n) && OneKeyEach(n, acts, keyOf)
    ensures !SysRun(n, acts).panicked
  {
    RunInStep(n, acts, keyOf, []);
  }

  /** What ProcessMsg sends on past the workers is each message without a load-balancing key, at once and as it is. */
  lemma {:induction false} PastWorkersInOrder(n: Net, acts: seq<Action>, keyOf: Bytes -> Bytes)
    requires Balanced(n) && OneKeyEach(n, acts, keyOf)
    ensures SentAtOnce(n, acts) == PastWorkers(n, acts)
    decreases |acts|
  {
    hide SysStep;
    hide WayOf;
    hide Added;
    if acts != [] {
      var front, a := acts[..|acts| - 1], acts[|acts| - 1];
      PastWorkersInOrder(n, front, keyOf);
      Unpanicked(n, front, keyOf);
      if a.Submit? { AtOnceAdds(n, SysRun(n, front), a.r); }
    }
  }

  function Times(q: seq<Record>, x: Record): nat {
    multiset(q)[x]
  }

  lemma TimesJoined(a: seq<Record>, b: seq<Record>, x: Record)
    ensures Times(a + b, x) == Times(a, x) + Times(b, x) && Times([], x) == 0
  {
  }

  /** How often the workers before `w` have sent on a record. */
  function TimesByFirst(n: Net, acts: seq<Action>, w: nat, x: Record): nat
    requires n.nfork >= 1
  {
    if w == 0 then 0 else TimesByFirst(n, acts, w - 1, x) + Times(SentBy(n, acts, w - 1), x)
  }

  lemma LastStep(n: Net, front: seq<Action>, a: Action, w: nat)
    requires n.nfork >= 1
    ensures SysRun(n, front + [a]) == SysStep(n, SysRun(n, front), a)
    ensures SentAtOnce(n, front + [a]) == SentAtOnce(n, front) + if a.Submit? then Added(n, SysRun(n, front), a) else []
    ensures SentBy(n, front + [a], w)
         == SentBy(n, front, w) + if !a.Submit? && a.w == w then Added(n, SysRun(n, front), a) else []
  {
    hide Added;
    hide SysStep;
    assert (front + [a])[..|front|] == front;
  }

  lemma TimesIs(n: Net, acts: seq<Action>, w: nat, x: Record)
    requires n.nfork >= 1
    ensures TimesByFirst(n, acts, w, x)
         == if w == 0 then 0 else TimesByFirst(n, acts, w - 1, x) + Times(SentBy(n, acts, w - 1), x)
  {
    hide SentBy;
    hide Times;
  }

  lemma {:induction false} FirstStep(n: Net, front: seq<Action>, a: Action, w: nat, x: Record)
    requires n.nfork >= 1
    ensures TimesByFirst(n, front + [a], w, x)
         == TimesByFirst(n, front, w, x)
            + if !a.Submit? && a.w < w then Times(Added(n, SysRun(n, front), a), x) else 0
    decreases w
  {
    hide *;
    TimesIs(n, front + [a], w, x);
    TimesIs(n, front, w, x);
    if w > 0 {
      FirstStep(n, front, a, w - 1, x);
      LastStep(n, front, a, w - 1);
      var add := if !a.Submit? && a.w == w - 1 then Added(n, SysRun(n, front), a) else [];
      TimesJoined(SentBy(n, front, w - 1), add, x);
    }
  }

  lemma AddedTo(n: Net, s: Sys, a: Action)
    requires n.nfork >= 1 && |s.chans| == |s.slots| == n.nfork
    ensures SentOf(SysStep(n, s, a).out, None) == SentOf(s.out, None) + Added(n, s, a)
    ensures !a.Submit? && a.w >= n.nfork ==> Added(n, s, a) == []
  {
    hide WorkerStep;
    var s' := SysStep(n, s, a);
    assert s'.out == s.out + s'.out[|s.out|..];
    SentOfAppend(s.out, s'.out[|s.out|..], None);
    if !a.Submit? && a.w >= n.nfork { assert s' == s && s.out[|s.out|..] == []; }
  }

  /** And nothing else goes out without a container: each record does so as often as ProcessMsg and the workers have
      sent it on. */
  lemma {:induction false} OthersAreAll(n: Net, acts: seq<Action>, x: Record)
    requires n.nfork >= 1
    ensures Times(SentOf(SysRun(n, acts).out, None), x)
         == Times(SentAtOnce(n, acts), x) + TimesByFirst(n, acts, n.nfork, x)
    decreases |acts|
  {
    if acts == [] {
      NothingSent(n, n.nfork, x);
    } else {
      var front, a := acts[..|acts| - 1], acts[|acts| - 1];
      assert acts == front + [a];
      hide *;
      OthersAreAll(n, front, x);
      FirstStep(n, front, a, n.nfork, x);
      AddedTo(n, SysRun(n, front), a);
      LastStep(n, front, a, 0);
      var add := Added(n, SysRun(n, front), a);
      TimesJoined(SentOf(SysRun(n, front).out, None), add, x);
      TimesJoined(SentAtOnce(n, front), if a.Submit? then add else [], x);
    }
  }

  lemma {:induction false} NothingSent(n: Net, w: nat, x: Record)
    requires n.nfork >= 1
    ensures TimesByFirst(n, [], w, x) == 0
    decreases w
  {
    if w > 0 { NothingSent(n, w - 1, x); }
  }
}
