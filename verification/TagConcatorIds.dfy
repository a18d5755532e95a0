/** What the tag concator promises the journal: ids and bytes are conserved and keep their order. */
module TagConcatorIds {
  import opened Options
  import C = Concator
  import opened TagConcator

  /** The ids that a message commits. */
  function IdsOf(m: Msg): seq<int> {
    [m.id] + m.extIds
  }

  function RecordIds(ms: seq<Msg>): seq<int> {
    if ms == [] then [] else RecordIds(ms[..|ms| - 1]) + IdsOf(ms[|ms| - 1])
  }

  function RecordLogs(c: Config, ms: seq<Msg>): Bytes {
    if ms == [] then []
    else
      var m := ms[|ms| - 1];
      RecordLogs(c, ms[..|ms| - 1]) + if HasRaw(m, c.msgKey) then m.fields[c.msgKey].b else []
  }

  /** The ids of fragments, in order. */
  function FragIds(g: seq<Frag>): seq<int> {
    if g == [] then [] else FragIds(g[..|g| - 1]) + [g[|g| - 1].msg.id]
  }

  /** The fragments that arrived. */
  function Arrived(evs: seq<Ev>): seq<Frag> {
    if evs == [] then []
    else Arrived(evs[..|evs| - 1]) + if evs[|evs| - 1].Arrive? then [evs[|evs| - 1].frag] else []
  }

  lemma {:induction false} FragIdsAppend(a: seq<Frag>, b: seq<Frag>)
    ensures FragIds(a + b) == FragIds(a) + FragIds(b)
    decreases |b|
  {
    if b == [] {
      assert a + b == a;
    } else {
      var b' := b[..|b| - 1];
      FragIdsAppend(a, b');
      assert (a + b)[..|a + b| - 1] == a + b';
      Nothing(FragIds(a), FragIds(b'), [b[|b| - 1].msg.id]);
    }
  }

  lemma {:induction false} JoinAppend(a: seq<Frag>, b: seq<Frag>)
    ensures Join(a + b) == Join(a) + Join(b)
    decreases |b|
  {
    if b == [] {
      assert a + b == a;
    } else {
      var b' := b[..|b| - 1];
      JoinAppend(a, b');
      assert (a + b)[..|a + b| - 1] == a + b';
      Nothing(Join(a), Join(b'), b[|b| - 1].log);
    }
  }

  // ---- The splitter loses nothing ----

  lemma FlattenSnoc(gs: seq<seq<Frag>>, g: seq<Frag>)
    ensures Flatten(gs + [g]) == Flatten(gs) + g
  {
    assert (gs + [g])[..|gs|] == gs;
  }

  lemma StepConserves(c: Config, s: Split, e: Ev)
    ensures var s' := SplitStep(c, s, e);
      Flatten(s'.groups) + OpenFrags(s') == Flatten(s.groups) + OpenFrags(s) + if e.Arrive? then [e.frag] else []
  {
    hide Flatten;
    var gs, o := s.groups, OpenFrags(s);
    Nothing(Flatten(gs), [], []);
    Nothing(Flatten(gs) + o, [], []);
    FlattenSnoc(gs, o);
    if e.Arrive? {
      FlattenSnoc(gs, [e.frag]);
      FlattenSnoc(gs, o + [e.frag]);
      Nothing(Flatten(gs), o, [e.frag]);
      Nothing(Flatten(gs) + (o + [e.frag]), [], []);
      Nothing(Flatten(gs) + [e.frag], [], []);
    }
  }

  lemma {:induction false} SplitterConserves(c: Config, evs: seq<Ev>)
    ensures Flatten(Splitter(c, evs).groups) + OpenFrags(Splitter(c, evs)) == Arrived(evs)
    decreases |evs|
  {
    if evs != [] {
      SplitterConserves(c, evs[..|evs| - 1]);
      StepConserves(c, Splitter(c, evs[..|evs| - 1]), evs[|evs| - 1]);
    }
  }

  // ---- The ids of a group ----

  /** A message from the pool has no ExtIds yet. */
  ghost predicate Clean(g: seq<Frag>) {
    forall i :: 0 <= i < |g| ==> g[i].msg.extIds == []
  }

  lemma {:induction false} TailIds(g: seq<Frag>)
    requires g != []
    ensures [g[0].msg.id] + IdsEach(Tails(g)) == FragIds(g)
    decreases |g|
  {
    if |g| == 1 {
      assert g[..0] == [];
    } else {
      var g', f := g[..|g| - 1], g[|g| - 1];
      TailIds(g');
      assert g == g' + [f];
      TailsMore(g', f);
      Nothing([g[0].msg.id], IdsEach(Tails(g')), [f.msg.id]);
    }
  }

  lemma GlueIds(c: Config, g: seq<Frag>)
    requires g != [] && Clean(g)
    ensures IdsOf(Glue(c, g)) == FragIds(g)
  {
    TailIds(g);
    assert g[0].msg.extIds + IdsEach(Tails(g)) == IdsEach(Tails(g));
  }

  lemma {:induction false} GroupsIds(c: Config, gs: seq<seq<Frag>>)
    requires GroupsFit(c, gs) && forall i :: 0 <= i < |gs| ==> Clean(gs[i])
    ensures RecordIds(GlueAll(c, gs)) == FragIds(Flatten(gs))
    ensures RecordLogs(c, GlueAll(c, gs)) == Join(Flatten(gs))
    decreases |gs|
  {
    if gs != [] {
      var gs', g := gs[..|gs| - 1], gs[|gs| - 1];
      GroupsIds(c, gs');
      GlueIds(c, g);
      GlueLog(c, g);
      FragIdsAppend(Flatten(gs'), g);
      JoinAppend(Flatten(gs'), g);
      var all := GlueAll(c, gs);
      assert all[..|all| - 1] == GlueAll(c, gs');
    }
  }

  lemma {:induction false} GroupsClean(gs: seq<seq<Frag>>, rest: seq<Frag>)
    requires Clean(Flatten(gs) + rest)
    ensures forall i :: 0 <= i < |gs| ==> Clean(gs[i])
    ensures Clean(rest)
    decreases |gs|
  {
    assert forall i :: 0 <= i < |rest| ==> rest[i] == (Flatten(gs) + rest)[|Flatten(gs)| + i];
    if gs != [] {
      var gs', g := gs[..|gs| - 1], gs[|gs| - 1];
      Nothing(Flatten(gs'), g, rest);
      GroupsClean(gs', g + rest);
      assert forall i :: 0 <= i < |g| ==> g[i] == (g + rest)[i];
    }
  }

  /** For every sequence of messages and visits, and each container: the ID and ExtIds of the records sent, in order,
      then those of the record pending, are the ids of the messages received for it, in order; the same holds of their
      bytes; and as many messages as were received have been sent, are pending or have been discarded. */
  lemma IdsConserved(c: Config, sts: seq<Step>, id: Bytes)
    requires Clean(Arrived(EvsOfAll(c, sts, id)))
    ensures var w := AdvanceAll(c, Start(), sts);
            var got := Arrived(EvsOfAll(c, sts, id));
            var pending := if id in w.slots then [w.slots[id].msg] else [];
      && !w.panicked
      && RecordIds(For(w.out, Some(id))) + RecordIds(pending) == FragIds(got)
      && RecordLogs(c, For(w.out, Some(id))) + RecordLogs(c, pending) == Join(got)
      && |For(w.out, Some(id))| + |pending| + |For(w.discarded, Some(id))| == |got|
  {
    hide Splitter;
    hide Advance;
    hide EvsOf;
    hide Arrived;
    hide Glue;
    var evs := EvsOfAll(c, sts, id);
    var w, s := AdvanceAll(c, Start(), sts), Splitter(c, evs);
    WorkerRefinesSplitter(c, sts);
    assert Follows(c, w, evs, id);
    SplitterConserves(c, evs);
    GroupsClean(s.groups, OpenFrags(s));
    GroupsIds(c, s.groups);
    FragIdsAppend(Flatten(s.groups), OpenFrags(s));
    JoinAppend(Flatten(s.groups), OpenFrags(s));
    GroupsCount(c, s.groups);
    if s.open.Some? {
      OneRecord(c, s.open.value.frags);
    }
  }

  lemma OneRecord(c: Config, g: seq<Frag>)
    requires g != [] && Clean(g)
    ensures RecordIds([Glue(c, g)]) == FragIds(g) && RecordLogs(c, [Glue(c, g)]) == Join(g) && |Tails(g)| == |g| - 1
  {
    GlueIds(c, g);
    GlueLog(c, g);
    TailsCount(g);
    assert [Glue(c, g)][..0] == [];
    assert [] + Join(g) == Join(g);
  }

  lemma {:induction false} TailsCount(g: seq<Frag>)
    requires g != []
    ensures |Tails(g)| == |g| - 1
    decreases |g|
  {
    if |g| > 1 { TailsCount(g[..|g| - 1]); }
  }

  lemma {:induction false} GroupsCount(c: Config, gs: seq<seq<Frag>>)
    requires GroupsFit(c, gs)
    ensures |GlueAll(c, gs)| + |TailsAll(gs)| == |Flatten(gs)|
    decreases |gs|
  {
    if gs != [] {
      GroupsCount(c, gs[..|gs| - 1]);
      TailsCount(gs[|gs| - 1]);
    }
  }

  // ---- Each message once ----

  lemma {:induction false} EachAppend(a: seq<Msg>, b: seq<Msg>)
    ensures IdsEach(a + b) == IdsEach(a) + IdsEach(b)
    decreases |b|
  {
    if b == [] {
      assert a + b == a;
    } else {
      var b' := b[..|b| - 1];
      EachAppend(a, b');
      assert (a + b)[..|a + b| - 1] == a + b';
      Nothing(IdsEach(a), IdsEach(b'), [b[|b| - 1].id]);
    }
  }

  lemma {:induction false} GroupsEach(c: Config, gs: seq<seq<Frag>>)
    requires GroupsFit(c, gs)
    ensures multiset(IdsEach(GlueAll(c, gs))) + multiset(IdsEach(TailsAll(gs))) == multiset(FragIds(Flatten(gs)))
    decreases |gs|
  {
    hide Glue;
    if gs != [] {
      var gs', g := gs[..|gs| - 1], gs[|gs| - 1];
      GroupsEach(c, gs');
      GlueEach(c, g);
      EachAppend(GlueAll(c, gs'), [Glue(c, g)]);
      EachAppend(TailsAll(gs'), Tails(g));
      FragIdsAppend(Flatten(gs'), g);
    }
  }

  lemma GlueEach(c: Config, g: seq<Frag>)
    requires g != []
    ensures multiset(IdsEach([Glue(c, g)])) + multiset(IdsEach(Tails(g))) == multiset(FragIds(g))
  {
    TailIds(g);
    assert [Glue(c, g)][..0] == [];
    assert IdsEach([Glue(c, g)]) == [g[0].msg.id];
  }

  /** Whatever ExtIds messages bring, each message received for a container is exactly one of three: it has been sent as
      the first of a record, it is pending as the first of one, or it has been discarded. For what was received falls
      into segments, in order; there is one record for each, and all but the first message of each are discarded, in
      order. */
  lemma EachMessageOnce(c: Config, sts: seq<Step>, id: Bytes)
    ensures var w, s := AdvanceAll(c, Start(), sts), Splitter(c, EvsOfAll(c, sts, id));
      && Flatten(s.groups) + OpenFrags(s) == Arrived(EvsOfAll(c, sts, id)) && GroupsFit(c, s.groups)
      && For(w.out, Some(id)) == GlueAll(c, s.groups)
      && PendingFor(w, id) == (if s.open.Some? && s.open.value.frags != [] then [Glue(c, s.open.value.frags)] else [])
      && For(w.discarded, Some(id)) == TailsAll(s.groups) + Tails(OpenFrags(s))
  {
    hide Splitter;
    hide Advance;
    hide EvsOf;
    hide Arrived;
    hide Glue;
    var evs := EvsOfAll(c, sts, id);
    WorkerRefinesSplitter(c, sts);
    assert Follows(c, AdvanceAll(c, Start(), sts), evs, id);
    SplitterConserves(c, evs);
  }

  function PendingFor(w: WorkerState, id: Bytes): seq<Msg> {
    if id in w.slots then [w.slots[id].msg] else []
  }

  /** The IDs of what is sent, pending and discarded are the IDs received, each as often. */
  lemma EachIdOnce(c: Config, sts: seq<Step>, id: Bytes)
    ensures var w := AdvanceAll(c, Start(), sts);
      multiset(IdsEach(For(w.out, Some(id)))) + multiset(IdsEach(PendingFor(w, id)))
      + multiset(IdsEach(For(w.discarded, Some(id)))) == multiset(FragIds(Arrived(EvsOfAll(c, sts, id))))
  {
    hide Splitter;
    hide AdvanceAll;
    hide EvsOfAll;
    hide Arrived;
    hide Glue;
    hide For;
    hide PendingFor;
    EachMessageOnce(c, sts, id);
    var s := Splitter(c, EvsOfAll(c, sts, id));
    GroupsEach(c, s.groups);
    FragIdsAppend(Flatten(s.groups), OpenFrags(s));
    EachAppend(TailsAll(s.groups), Tails(OpenFrags(s)));
    if OpenFrags(s) == [] {
      NoIdsEach();
    } else {
      GlueEach(c, OpenFrags(s));
    }
    hide *;
    Shuffle(multiset(IdsEach(GlueAll(c, s.groups))), multiset(IdsEach(TailsAll(s.groups))),
            multiset(IdsEach(PendingFor(AdvanceAll(c, Start(), sts), id))), multiset(IdsEach(Tails(OpenFrags(s)))));
  }

  lemma NoIdsEach()
    ensures IdsEach([]) == [] && Tails([]) == [] && FragIds([]) == []
  {
  }

  lemma Shuffle(a: multiset<int>, b: multiset<int>, d: multiset<int>, e: multiset<int>)
    ensures a + d + (b + e) == (a + b) + (d + e)
  {
  }

  // ---- Without the assumption on the pool ----

  /** The ExtIds of messages. */
  function ExtIdsOf(ms: seq<Msg>): seq<int> {
    if ms == [] then [] else ExtIdsOf(ms[..|ms| - 1]) + ms[|ms| - 1].extIds
  }

  function FragMsgs(g: seq<Frag>): seq<Msg> {
    if g == [] then [] else FragMsgs(g[..|g| - 1]) + [g[|g| - 1].msg]
  }

  lemma MsgsSnoc(g: seq<Frag>, f: Frag)
    requires g != []
    ensures RecordIds(FragMsgs(g + [f])) == RecordIds(FragMsgs(g)) + IdsOf(f.msg)
    ensures ExtIdsOf(Tails(g + [f])) == ExtIdsOf(Tails(g)) + f.msg.extIds
  {
    TailsMore(g, f);
    assert (g + [f])[..|g|] == g;
    assert (FragMsgs(g) + [f.msg])[..|FragMsgs(g)|] == FragMsgs(g);
    assert (Tails(g) + [f.msg])[..|Tails(g)|] == Tails(g);
  }

  lemma GlueIdsMore(c: Config, g: seq<Frag>, f: Frag)
    requires g != []
    ensures IdsOf(Glue(c, g + [f])) == IdsOf(Glue(c, g)) + [f.msg.id]
  {
    hide Tails;
    hide Join;
    TailsMore(g, f);
    Nothing([g[0].msg.id], g[0].msg.extIds + IdsEach(Tails(g)), [f.msg.id]);
    Nothing(g[0].msg.extIds, IdsEach(Tails(g)), [f.msg.id]);
  }

  lemma LoneMultiset(c: Config, f: Frag)
    ensures RecordIds(FragMsgs([f])) == IdsOf(Glue(c, [f])) && ExtIdsOf(Tails([f])) == []
  {
    hide Join;
    assert [f][..0] == [] && [f.msg][..0] == [];
    assert FragMsgs([f]) == [f.msg];
    assert f.msg.extIds + [] == f.msg.extIds;
    assert [] + IdsOf(f.msg) == IdsOf(f.msg);
  }

  lemma {:induction false} GroupMultiset(c: Config, g: seq<Frag>)
    requires g != []
    ensures multiset(RecordIds(FragMsgs(g))) == multiset(IdsOf(Glue(c, g))) + multiset(ExtIdsOf(Tails(g)))
    decreases |g|
  {
    hide Glue;
    hide RecordIds;
    hide FragMsgs;
    hide ExtIdsOf;
    hide Tails;
    if |g| == 1 {
      assert g == [g[0]];
      LoneMultiset(c, g[0]);
    } else {
      var g', f := g[..|g| - 1], g[|g| - 1];
      GroupMultiset(c, g');
      assert g == g' + [f];
      MsgsSnoc(g', f);
      GlueIdsMore(c, g', f);
      assert multiset(IdsOf(f.msg)) == multiset([f.msg.id]) + multiset(f.msg.extIds);
    }
  }

  lemma {:induction false} MsgsAppend(a: seq<Frag>, b: seq<Frag>)
    ensures FragMsgs(a + b) == FragMsgs(a) + FragMsgs(b)
    decreases |b|
  {
    if b == [] {
      assert a + b == a;
    } else {
      var b' := b[..|b| - 1];
      MsgsAppend(a, b');
      assert (a + b)[..|a + b| - 1] == a + b';
      Nothing(FragMsgs(a), FragMsgs(b'), [b[|b| - 1].msg]);
    }
  }

  lemma {:induction false} RecordIdsAppend(a: seq<Msg>, b: seq<Msg>)
    ensures RecordIds(a + b) == RecordIds(a) + RecordIds(b)
    ensures ExtIdsOf(a + b) == ExtIdsOf(a) + ExtIdsOf(b)
    decreases |b|
  {
    if b == [] {
      assert a + b == a;
    } else {
      var b' := b[..|b| - 1];
      RecordIdsAppend(a, b');
      assert (a + b)[..|a + b| - 1] == a + b';
      Nothing(RecordIds(a), RecordIds(b'), IdsOf(b[|b| - 1]));
      Nothing(ExtIdsOf(a), ExtIdsOf(b'), b[|b| - 1].extIds);
    }
  }

  lemma RecordSnoc(c: Config, gs: seq<seq<Frag>>, g: seq<Frag>)
    requires GroupsFit(c, gs) && AllFit(c, g)
    ensures GroupsFit(c, gs + [g]) && RecordIds(GlueAll(c, gs + [g])) == RecordIds(GlueAll(c, gs)) + IdsOf(Glue(c, g))
    ensures FragMsgs(Flatten(gs + [g])) == FragMsgs(Flatten(gs)) + FragMsgs(g)
    ensures TailsAll(gs + [g]) == TailsAll(gs) + Tails(g)
  {
    GroupSnoc(c, gs, g);
    assert (GlueAll(c, gs) + [Glue(c, g)])[..|GlueAll(c, gs)|] == GlueAll(c, gs);
    FlattenSnoc(gs, g);
    MsgsAppend(Flatten(gs), g);
  }

  lemma {:induction false} GroupsMultiset(c: Config, gs: seq<seq<Frag>>)
    requires GroupsFit(c, gs)
    ensures multiset(RecordIds(FragMsgs(Flatten(gs))))
         == multiset(RecordIds(GlueAll(c, gs))) + multiset(ExtIdsOf(TailsAll(gs)))
    decreases |gs|
  {
    if gs != [] {
      hide Glue;
      hide RecordIds;
      hide FragMsgs;
      hide ExtIdsOf;
      hide Tails;
      hide TailsAll;
      hide GlueAll;
      hide Flatten;
      var gs', g := gs[..|gs| - 1], gs[|gs| - 1];
      assert gs == gs' + [g];
      GroupsMultiset(c, gs');
      GroupMultiset(c, g);
      RecordSnoc(c, gs', g);
      RecordIdsAppend(FragMsgs(Flatten(gs')), FragMsgs(g));
      RecordIdsAppend(TailsAll(gs'), Tails(g));
    }
  }

  /** Whatever ExtIds messages arrive with: all ids received for a container are, as a multiset, the ids of the records
      sent and pending, and the ExtIds of the tails discarded. */
  lemma IdConservation(c: Config, sts: seq<Step>, id: Bytes)
    ensures var w := AdvanceAll(c, Start(), sts);
            var pending := if id in w.slots then IdsOf(w.slots[id].msg) else [];
      multiset(RecordIds(FragMsgs(Arrived(EvsOfAll(c, sts, id)))))
      == multiset(RecordIds(For(w.out, Some(id)))) + multiset(pending) + multiset(ExtIdsOf(For(w.discarded, Some(id))))
  {
    hide Splitter;
    hide Advance;
    hide EvsOf;
    hide Arrived;
    hide Glue;
    hide RecordIds;
    var evs := EvsOfAll(c, sts, id);
    var w, s := AdvanceAll(c, Start(), sts), Splitter(c, evs);
    WorkerRefinesSplitter(c, sts);
    assert Follows(c, w, evs, id);
    SplitterConserves(c, evs);
    GroupsMultiset(c, s.groups);
    MsgsAppend(Flatten(s.groups), OpenFrags(s));
    RecordIdsAppend(FragMsgs(Flatten(s.groups)), FragMsgs(OpenFrags(s)));
    RecordIdsAppend(TailsAll(s.groups), Tails(OpenFrags(s)));
    if s.open.Some? { GroupMultiset(c, s.open.value.frags); } else { NoIds(); }
  }

  lemma NoIds()
    ensures RecordIds(FragMsgs([])) == []
  {
  }

  // ---- What has no container goes through ----

  /** The messages that have no identifier or no log. */
  function Passed(c: Config, sts: seq<Step>): seq<Msg> {
    if sts == [] then []
    else
      Passed(c, sts[..|sts| - 1])
      + match sts[|sts| - 1]
        case Visit(_, _) => []
        case Receive(m, _) =>
          if C.BytesAt(m.fields, c.identifier) == None || C.BytesAt(m.fields, c.msgKey) == None then [m] else []
  }

  /** What passes is unchanged. */
  lemma {:induction false} OthersPass(c: Config, sts: seq<Step>)
    ensures For(AdvanceAll(c, Start(), sts).out, None) == Passed(c, sts)
    ensures For(AdvanceAll(c, Start(), sts).discarded, None) == []
    ensures forall m :: Inspect(c, m).Pass? ==> Inspect(c, m).msg == m
    decreases |sts|
  {
    if sts != [] {
      hide Place;
      hide WorkerStep;
      hide For;
      var front, st := sts[..|sts| - 1], sts[|sts| - 1];
      OthersPass(c, front);
      WorkerRefinesSplitter(c, front);
      WorkerRefinesSplitter(c, sts);
      var w := AdvanceAll(c, Start(), front);
      var turn := WorkerStep(c, w.slots, st);
      ForAppend(w.out, turn.out, None);
      ForAppend(w.discarded, turn.discarded, None);
      PassedOne(c, w.slots, st);
    }
  }

  lemma PassIs(c: Config, m: Msg)
    ensures Inspect(c, m).Pass? <==> C.BytesAt(m.fields, c.identifier) == None || C.BytesAt(m.fields, c.msgKey) == None
    ensures Inspect(c, m).Pass? ==> Inspect(c, m).msg == m
  {
  }

  lemma PassedOne(c: Config, slots: Slots, st: Step)
    requires WorkerStep(c, slots, st).Turn?
    ensures var turn := WorkerStep(c, slots, st);
      && For(turn.discarded, None) == []
      && For(turn.out, None) == match st
           case Visit(_, _) => []
           case Receive(m, _) =>
             if C.BytesAt(m.fields, c.identifier) == None || C.BytesAt(m.fields, c.msgKey) == None then [m] else []
  {
    if st.Receive? { PassIs(c, st.msg); }
    hide Inspect;
    var turn := WorkerStep(c, slots, st);
    if turn.out != [] { assert turn.out == [turn.out[0]]; ForOne(turn.out[0], None); }
    if turn.discarded != [] { assert turn.discarded == [turn.discarded[0]]; ForOne(turn.discarded[0], None); }
  }

  // ---- Records are well cut, and tails are discarded early ----

  ghost predicate WellCut(c: Config, g: seq<Frag>) {
    && g != []
    && (forall i :: 1 <= i < |g| ==> g[0].head && !g[i].head)
    && (|g| <= 2 || |Join(g[..|g| - 1])| < c.maxLen)
  }

  ghost predicate WellOpen(c: Config, g: seq<Frag>) {
    && g != [] && g[0].head
    && (forall i :: 1 <= i < |g| ==> !g[i].head)
    && (|g| == 1 || |Join(g)| < c.maxLen)
  }

  /** A record is a head followed by continuations, or a lone message; before its last fragment it was within the cap.
      */
  lemma {:induction false} SegmentShape(c: Config, evs: seq<Ev>)
    ensures forall i :: 0 <= i < |Splitter(c, evs).groups| ==> WellCut(c, Splitter(c, evs).groups[i])
    ensures Splitter(c, evs).open.Some? ==> WellOpen(c, Splitter(c, evs).open.value.frags)
    decreases |evs|
  {
    if evs != [] {
      SegmentShape(c, evs[..|evs| - 1]);
      StepShape(c, Splitter(c, evs[..|evs| - 1]), evs[|evs| - 1]);
    }
  }

  lemma StepShape(c: Config, s: Split, e: Ev)
    requires forall i :: 0 <= i < |s.groups| ==> WellCut(c, s.groups[i])
    requires s.open.Some? ==> WellOpen(c, s.open.value.frags)
    ensures var s' := SplitStep(c, s, e);
      && (forall i :: 0 <= i < |s'.groups| ==> WellCut(c, s'.groups[i]))
      && (s'.open.Some? ==> WellOpen(c, s'.open.value.frags))
  {
    if s.open.Some? {
      var g := s.open.value.frags;
      if |g| > 1 { assert Join(g) == Join(g[..|g| - 1]) + g[|g| - 1].log; }
      if e.Arrive? { assert (g + [e.frag])[..|g|] == g; }
    }
  }

  // ---- When messages are glued ----

  /** No look at the slot has found the group, which last grew at `at`, overdue. */
  ghost predicate Quiet(looks: seq<Ev>, at: int, timeout: int) {
    forall i :: 0 <= i < |looks| ==> looks[i].Tick? && looks[i].now - at <= timeout
  }

  /** The next message of a container with an open group joins it iff it is not a head and no look in between has found
      the group overdue; the group is then sent iff it has come to the cap. Otherwise the group is sent as it is, once;
      a head opens the next group, anything else is sent by itself. */
  lemma NextFragmentJoinsIff(c: Config, evs: seq<Ev>, looks: seq<Ev>, f: Frag, now: int)
    requires Splitter(c, evs).open.Some? && forall i :: 0 <= i < |looks| ==> looks[i].Tick?
    ensures var s, s' := Splitter(c, evs), Splitter(c, evs + looks + [Arrive(f, now)]); var o := s.open.value;
      if f.head then s' == Split(Some(Open([f], now)), s.groups + [o.frags])
      else if !Quiet(looks, o.lastT, c.timeout) then s' == Split(None, s.groups + [o.frags] + [[f]])
      else if |Join(o.frags)| + |f.log| >= c.maxLen then s' == Split(None, s.groups + [o.frags + [f]])
      else s' == Split(Some(Open(o.frags + [f], now)), s.groups)
  {
    var o := Splitter(c, evs).open.value;
    LooksKeepOrCut(c, evs, looks);
    SplitterSnoc(c, evs + looks, [Arrive(f, now)]);
    assert (o.frags + [f])[..|o.frags|] == o.frags;
  }

  /** A container with no open group: only a head opens one, anything else is sent by itself. */
  lemma FirstFragmentWaitsIff(c: Config, evs: seq<Ev>, looks: seq<Ev>, f: Frag, now: int)
    requires Splitter(c, evs).open == None && forall i :: 0 <= i < |looks| ==> looks[i].Tick?
    ensures var s' := Splitter(c, evs + looks + [Arrive(f, now)]);
      s' == if f.head then Split(Some(Open([f], now)), Splitter(c, evs).groups)
            else Split(None, Splitter(c, evs).groups + [[f]])
  {
    LooksKeepOrCut(c, evs, looks);
    SplitterSnoc(c, evs + looks, [Arrive(f, now)]);
  }

  lemma {:induction false} LooksKeepOrCut(c: Config, evs: seq<Ev>, looks: seq<Ev>)
    requires forall i :: 0 <= i < |looks| ==> looks[i].Tick?
    ensures var s := Splitter(c, evs);
      Splitter(c, evs + looks)
      == if s.open == None || Quiet(looks, s.open.value.lastT, c.timeout) then s
         else Split(None, s.groups + [s.open.value.frags])
    decreases |looks|
  {
    hide Splitter;
    hide Join;
    if looks == [] {
      assert evs + looks == evs;
    } else {
      var front, e := looks[..|looks| - 1], looks[|looks| - 1];
      LooksKeepOrCut(c, evs, front);
      assert looks == front + [e];
      assert evs + looks == (evs + front) + [e];
      SplitterSnoc(c, evs + front, [e]);
    }
  }

  /** A tail is discarded, and so its id committed, in the very step that appends it; its record is then still unsent
      unless this tail has brought it to the cap. */
  lemma TailDiscardedEarlyIff(c: Config, sts: seq<Step>, m: Msg, now: int)
    requires Inspect(c, m).Take? && !Inspect(c, m).frag.head
    requires Inspect(c, m).ident in AdvanceAll(c, Start(), sts).slots
    ensures var id, f := Inspect(c, m).ident, Inspect(c, m).frag;
            var w, w' := AdvanceAll(c, Start(), sts), AdvanceAll(c, Start(), sts + [Receive(m, now)]);
            var g := OpenFrags(Splitter(c, EvsOfAll(c, sts, id)));
      && w'.discarded == w.discarded + [Sent(Some(id), f.msg)]
      && (w'.out == w.out && id in w'.slots && w'.slots[id].msg == Glue(c, g + [f])
          <==> |Join(g + [f])| < c.maxLen)
  {
    hide Inspect;
    hide Glue;
    hide Splitter;
    hide EvsOfAll;
    hide AllFit;
    var id, f := Inspect(c, m).ident, Inspect(c, m).frag;
    var w := AdvanceAll(c, Start(), sts);
    var s := Splitter(c, EvsOfAll(c, sts, id));
    var g := OpenFrags(s);
    assert (sts + [Receive(m, now)])[..|sts|] == sts;
    WorkerRefinesSplitter(c, sts);
    assert Follows(c, w, EvsOfAll(c, sts, id), id);
    InspectFits(c, m);
    GlueMore(c, g, f);
    FitNonEmpty(c, g);
    GlueLog(c, g + [f]);
  }

  lemma FitNonEmpty(c: Config, g: seq<Frag>)
    requires AllFit(c, g)
    ensures g != []
  {
  }
}
