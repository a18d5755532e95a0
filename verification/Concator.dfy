/** Docker splits long log lines; the receiver of internal/recvs/fluentd.go glues the fragments of each
    container back together. This module has the values the receiver works on, the splitter that says
    what the records of one container should be, and the turn of one worker over its slot map. */
module Concator {
  import opened Options

  newtype byte = x: int | 0 <= x < 256

  // Go strings are byte strings.
  type Bytes = seq<byte>

  /** The dynamic type of a message field. */
  datatype Field = Raw(b: Bytes) | Text(b: Bytes) | Other

  /** A message without its ID, which SendMsg assigns. */
  datatype Record = Record(tag: Bytes, fields: map<Bytes, Field>)

  /** What is configured for a tag; `head` is the compiled head regexp. */
  datatype TagCfg = TagCfg(msgKey: Bytes, identifierKey: Bytes, head: Bytes -> bool)

  datatype Config = Config(tags: map<Bytes, TagCfg>, tagKey: Bytes, maxLen: int, wait: int)

  function BytesAt(fields: map<Bytes, Field>, k: Bytes): Option<Bytes> {
    if k in fields && !fields[k].Other? then Some(fields[k].b) else None
  }

  /** A message that takes part in concatenation, its log already converted to raw bytes. */
  datatype Fragment = Fragment(rec: Record, key: Bytes, log: Bytes, head: bool)

  datatype Route = Pass(rec: Record) | Frag(ident: Bytes, frag: Fragment)

  /** The checks at the top of the loop: a message without configuration, log or identifier goes straight through. */
  function Classify(c: Config, r: Record): Route {
    if r.tag !in c.tags then Pass(r)
    else
      var cfg := c.tags[r.tag];
      match BytesAt(r.fields, cfg.msgKey)
      case None => Pass(r)
      case Some(log) =>
        var r' := r.(fields := r.fields[cfg.msgKey := Raw(log)]);
        match BytesAt(r'.fields, cfg.identifierKey)
        case None => Pass(r')
        case Some(ident) => Frag(ident, Fragment(r', cfg.msgKey, log, cfg.head(log)))
  }

  /** A field that is a string or a byte slice. */
  predicate IsBytes(fields: map<Bytes, Field>, k: Bytes, b: Bytes) {
    k in fields && (fields[k] == Raw(b) || fields[k] == Text(b))
  }

  lemma BytesAtIs(fields: map<Bytes, Field>, k: Bytes)
    ensures forall b :: BytesAt(fields, k) == Some(b) <==> IsBytes(fields, k, b)
  {
  }

  /** A message takes part iff its tag is configured and both its log and its identifier are strings or byte slices; it
      goes on as it is, but for its log, which becomes a byte slice if the tag is configured. */
  lemma ClassifyIs(c: Config, r: Record)
    ensures match Classify(c, r)
      case Frag(id, f) =>
        && r.tag in c.tags
        && var cfg := c.tags[r.tag];
           && IsBytes(r.fields, cfg.msgKey, f.log) && IsBytes(r.fields, cfg.identifierKey, id)
           && f == Fragment(Record(r.tag, r.fields[cfg.msgKey := Raw(f.log)]), cfg.msgKey, f.log, cfg.head(f.log))
      case Pass(p) =>
        && p.tag == r.tag
        && (r.tag in c.tags ==>
              var cfg := c.tags[r.tag];
              && (forall log, id :: !(IsBytes(r.fields, cfg.msgKey, log) && IsBytes(r.fields, cfg.identifierKey, id)))
              && (forall log :: IsBytes(r.fields, cfg.msgKey, log) ==> p.fields == r.fields[cfg.msgKey := Raw(log)]))
        && (r.tag !in c.tags || (forall log :: !IsBytes(r.fields, c.tags[r.tag].msgKey, log)) ==> p == r)
  {
    if r.tag in c.tags {
      var cfg := c.tags[r.tag];
      BytesAtIs(r.fields, cfg.msgKey);
      BytesAtIs(r.fields, cfg.identifierKey);
      match BytesAt(r.fields, cfg.msgKey)
      case None =>
      case Some(log) =>
        assert IsBytes(r.fields, cfg.msgKey, log);
        BytesAtIs(r.fields[cfg.msgKey := Raw(log)], cfg.identifierKey);
        forall b
          ensures IsBytes(r.fields, cfg.identifierKey, b)
             <==> IsBytes(r.fields[cfg.msgKey := Raw(log)], cfg.identifierKey, b)
        {
        }
    }
  }

  /** SendMsg stores the tag in the message. */
  function Seal(c: Config, r: Record): Record {
    r.(fields := r.fields[c.tagKey := Text(r.tag)])
  }

  /** It changes nothing else. */
  lemma SealIs(c: Config, r: Record)
    ensures var s := Seal(c, r);
      && s.tag == r.tag && s.fields.Keys == r.fields.Keys + {c.tagKey} && s.fields[c.tagKey] == Text(r.tag)
      && forall k :: k in r.fields && k != c.tagKey ==> s.fields[k] == r.fields[k]
  {
  }

  // ---- The splitter: what one container's fragments should become ----

  function Join(g: seq<Fragment>): Bytes {
    if g == [] then [] else Join(g[..|g| - 1]) + g[|g| - 1].log
  }

  /** The record made of a group: the first message with the logs of all of them. */
  function Glue(g: seq<Fragment>): Record
    requires g != []
  {
    g[0].rec.(fields := g[0].rec.fields[g[0].key := Raw(Join(g))])
  }

  /** Apart from the log the record is its first message. */
  lemma GlueIs(g: seq<Fragment>)
    requires g != []
    ensures var m, r := g[0].rec, Glue(g);
      && r.tag == m.tag && r.fields.Keys == m.fields.Keys + {g[0].key} && r.fields[g[0].key] == Raw(Join(g))
      && forall k :: k in m.fields && k != g[0].key ==> r.fields[k] == m.fields[k]
  {
  }

  /** The group being collected, and when it last grew. */
  datatype Open = Open(frags: seq<Fragment>, lastT: int)

  /** What happens to one container: a fragment with the clock read before and after it is handled, a
      visit of the cleaner, or the exit of the worker. */
  datatype Ev = Arrive(frag: Fragment, t1: int, t2: int) | Visit(t: int) | Close

  datatype Split = Split(open: Option<Open>, groups: seq<seq<Fragment>>)

  function SplitStep(c: Config, s: Split, e: Ev): Split {
    match e
    case Arrive(f, t1, t2) =>
      (match s.open
       case None =>
         if f.head then Split(Some(Open([f], t2)), s.groups) else Split(None, s.groups + [[f]])
       case Some(o) =>
         if f.head || t1 - o.lastT > c.wait then Split(Some(Open([f], t2)), s.groups + [o.frags])
         else if |Join(o.frags + [f])| >= c.maxLen then Split(None, s.groups + [o.frags + [f]])
         else Split(Some(Open(o.frags + [f], t2)), s.groups))
    case Visit(t) =>
      if s.open.Some? && t - s.open.value.lastT > c.wait then Split(None, s.groups + [s.open.value.frags]) else s
    case Close =>
      if s.open.Some? then Split(None, s.groups + [s.open.value.frags]) else s
  }

  function Splitter(c: Config, evs: seq<Ev>): Split {
    if evs == [] then Split(None, []) else SplitStep(c, Splitter(c, evs[..|evs| - 1]), evs[|evs| - 1])
  }

  function Fragments(evs: seq<Ev>): seq<Fragment> {
    if evs == [] then []
    else Fragments(evs[..|evs| - 1]) + if evs[|evs| - 1].Arrive? then [evs[|evs| - 1].frag] else []
  }

  function Flatten(gs: seq<seq<Fragment>>): seq<Fragment> {
    if gs == [] then [] else Flatten(gs[..|gs| - 1]) + gs[|gs| - 1]
  }

  function OpenFrags(s: Split): seq<Fragment> {
    if s.open.Some? then s.open.value.frags else []
  }

  lemma FlattenSnoc(gs: seq<seq<Fragment>>, g: seq<Fragment>)
    ensures Flatten(gs + [g]) == Flatten(gs) + g
  {
    assert (gs + [g])[..|gs|] == gs;
  }

  /** No fragment is lost, doubled or reordered: the groups followed by the open group are the fragments. */
  lemma {:induction false} SplitterConserves(c: Config, evs: seq<Ev>)
    ensures Flatten(Splitter(c, evs).groups) + OpenFrags(Splitter(c, evs)) == Fragments(evs)
  {
    if evs != [] {
      var front, e := evs[..|evs| - 1], evs[|evs| - 1];
      SplitterConserves(c, front);
      StepConserves(c, Splitter(c, front), e);
    }
  }

  lemma StepConserves(c: Config, s: Split, e: Ev)
    ensures var s' := SplitStep(c, s, e);
      Flatten(s'.groups) + OpenFrags(s')
      == Flatten(s.groups) + OpenFrags(s) + if e.Arrive? then [e.frag] else []
  {
    var s', gs, o := SplitStep(c, s, e), s.groups, OpenFrags(s);
    if e.Arrive? {
      var f := e.frag;
      Shift(Flatten(gs), o, [f]);
      if s.open == None {
        CloseOne(gs, [f]);
      } else if s'.open == None {
        CloseOne(gs, o + [f]);
      } else if s'.groups != gs {
        CloseOne(gs, o);
      }
    } else {
      CloseOne(gs, o);
    }
  }

  lemma Shift(a: seq<Fragment>, b: seq<Fragment>, d: seq<Fragment>)
    ensures a + b + d == a + (b + d)
  {
  }

  lemma CloseOne(gs: seq<seq<Fragment>>, g: seq<Fragment>)
    ensures Flatten(gs + [g]) == Flatten(gs) + g
    ensures Flatten(gs + [g]) + [] == Flatten(gs) + g == Flatten(gs) + g + []
    ensures Flatten(gs) + [] == Flatten(gs) && [] + g == g
  {
    FlattenSnoc(gs, g);
  }

  /** A record is one fragment followed by continuations only, and without its last fragment it is either
      a single fragment or shorter than the cap. */
  ghost predicate WellCut(c: Config, g: seq<Fragment>) {
    && g != []
    && (forall i :: 1 <= i < |g| ==> !g[i].head)
    && (|g| <= 2 || |Join(g[..|g| - 1])| < c.maxLen)
  }

  /** A group that is still open and has grown is below the cap. */
  ghost predicate WellOpen(c: Config, g: seq<Fragment>) {
    && g != []
    && (forall i :: 1 <= i < |g| ==> !g[i].head)
    && (|g| == 1 || |Join(g)| < c.maxLen)
  }

  lemma {:induction false} SegmentShape(c: Config, evs: seq<Ev>)
    ensures forall g :: g in Splitter(c, evs).groups ==> WellCut(c, g)
    ensures Splitter(c, evs).open.Some? ==> WellOpen(c, Splitter(c, evs).open.value.frags)
  {
    if evs != [] {
      SegmentShape(c, evs[..|evs| - 1]);
      StepShape(c, Splitter(c, evs[..|evs| - 1]), evs[|evs| - 1]);
    }
  }

  lemma OpenIsCut(c: Config, g: seq<Fragment>)
    requires WellOpen(c, g)
    ensures WellCut(c, g)
  {
    if |g| > 1 {
      assert Join(g) == Join(g[..|g| - 1]) + g[|g| - 1].log;
    }
  }

  lemma StepShape(c: Config, s: Split, e: Ev)
    requires forall g :: g in s.groups ==> WellCut(c, g)
    requires s.open.Some? ==> WellOpen(c, s.open.value.frags)
    ensures var s' := SplitStep(c, s, e);
      && (forall g :: g in s'.groups ==> WellCut(c, g))
      && (s'.open.Some? ==> WellOpen(c, s'.open.value.frags))
  {
    if s.open.Some? {
      var o := s.open.value.frags;
      OpenIsCut(c, o);
      if e.Arrive? {
        assert (o + [e.frag])[..|o|] == o;
      }
    }
  }

  /** Neither an exit nor a visit of the cleaner has found the group, which last grew at `at`, overdue. */
  ghost predicate Quiet(mids: seq<Ev>, at: int, wait: int) {
    forall i :: 0 <= i < |mids| ==> mids[i].Visit? && mids[i].t - at <= wait
  }

  /** When fragments are glued: the next fragment of a container with an open group joins it iff it is not a head, it
      comes within the wait, and no cleaning and no exit in between has closed the group; the group is then sent iff it
      has come to the cap. Otherwise the group is sent as it is, once, and the fragment opens the next one, but for a
      continuation after a group that was closed: that is sent by itself. */
  lemma NextFragmentJoinsIff(c: Config, evs: seq<Ev>, mids: seq<Ev>, f: Fragment, t1: int, t2: int)
    requires Splitter(c, evs).open.Some? && forall i :: 0 <= i < |mids| ==> !mids[i].Arrive?
    ensures var s, s' := Splitter(c, evs), Splitter(c, evs + mids + [Arrive(f, t1, t2)]); var o := s.open.value;
      var before := s.groups;
      if !Quiet(mids, o.lastT, c.wait) then
        s' == if f.head then Split(Some(Open([f], t2)), before + [o.frags])
              else Split(None, before + [o.frags] + [[f]])
      else if f.head || t1 - o.lastT > c.wait then s' == Split(Some(Open([f], t2)), before + [o.frags])
      else if |Join(o.frags)| + |f.log| >= c.maxLen then s' == Split(None, before + [o.frags + [f]])
      else s' == Split(Some(Open(o.frags + [f], t2)), before)
  {
    var o := Splitter(c, evs).open.value;
    VisitsKeepOrCut(c, evs, mids);
    SplitterSnoc(c, evs + mids, Arrive(f, t1, t2));
    assert (o.frags + [f])[..|o.frags|] == o.frags;
  }

  /** A container with no open group: only a head opens one, anything else is sent by itself. */
  lemma FirstFragmentWaitsIff(c: Config, evs: seq<Ev>, mids: seq<Ev>, f: Fragment, t1: int, t2: int)
    requires Splitter(c, evs).open == None && forall i :: 0 <= i < |mids| ==> !mids[i].Arrive?
    ensures var s' := Splitter(c, evs + mids + [Arrive(f, t1, t2)]);
      s' == if f.head then Split(Some(Open([f], t2)), Splitter(c, evs).groups)
            else Split(None, Splitter(c, evs).groups + [[f]])
  {
    VisitsKeepOrCut(c, evs, mids);
    SplitterSnoc(c, evs + mids, Arrive(f, t1, t2));
  }

  lemma {:induction false} VisitsKeepOrCut(c: Config, evs: seq<Ev>, mids: seq<Ev>)
    requires forall i :: 0 <= i < |mids| ==> !mids[i].Arrive?
    ensures var s := Splitter(c, evs);
      Splitter(c, evs + mids)
      == if s.open == None || Quiet(mids, s.open.value.lastT, c.wait) then s
         else Split(None, s.groups + [s.open.value.frags])
    decreases |mids|
  {
    hide Splitter;
    if mids == [] {
      assert evs + mids == evs;
    } else {
      hide Join;
      var front, e := mids[..|mids| - 1], mids[|mids| - 1];
      VisitsKeepOrCut(c, evs, front);
      assert mids == front + [e];
      assert evs + mids == (evs + front) + [e];
      SplitterSnoc(c, evs + front, e);
    }
  }

  lemma SplitterSnoc(c: Config, evs: seq<Ev>, e: Ev)
    ensures Splitter(c, evs + [e]) == SplitStep(c, Splitter(c, evs), e)
  {
    assert (evs + [e])[..|evs|] == evs;
  }

  // ---- One worker ----

  datatype Pending = Pending(rec: Record, lastT: int)

  type Slots = map<Bytes, Pending>

  /** A record handed to SendMsg, with the identifier of the container it came from, if it has one. */
  datatype Sent = Sent(ident: Option<Bytes>, rec: Record)

  datatype Step = Receive(rec: Record, t1: int, t2: int) | Clean(ident: Bytes, t: int) | Flush(ident: Bytes)

  datatype Turn = Panic | Turn(slots: Slots, sent: seq<Sent>)

  function Append(r: Record, k: Bytes, log: Bytes): Record
    requires k in r.fields && r.fields[k].Raw?
  {
    r.(fields := r.fields[k := Raw(r.fields[k].b + log)])
  }

  /** One fragment meets the slot map. The type assertion on the pending message can panic. */
  function Place(c: Config, slots: Slots, id: Bytes, f: Fragment, t1: int, t2: int): Turn {
    if id !in slots then
      if f.head then Turn(slots[id := Pending(f.rec, t2)], []) else Turn(slots, [Sent(Some(id), f.rec)])
    else if f.head || t1 - slots[id].lastT > c.wait then
      Turn(slots[id := Pending(f.rec, t2)], [Sent(Some(id), slots[id].rec)])
    else if !(f.key in slots[id].rec.fields && slots[id].rec.fields[f.key].Raw?) then Panic
    else
      var r := Append(slots[id].rec, f.key, f.log);
      if |r.fields[f.key].b| >= c.maxLen then Turn(slots - {id}, [Sent(Some(id), r)])
      else Turn(slots[id := Pending(r, t2)], [])
  }

  /** One step of a worker: a message, one identifier visited by the cleaner, or one flushed at exit. */
  function WorkerStep(c: Config, slots: Slots, st: Step): Turn {
    match st
    case Receive(r, t1, t2) =>
      (match Classify(c, r)
       case Pass(r') => Turn(slots, [Sent(None, r')])
       case Frag(id, f) => Place(c, slots, id, f, t1, t2))
    case Clean(id, t) =>
      if id in slots && t - slots[id].lastT > c.wait then Turn(slots - {id}, [Sent(Some(id), slots[id].rec)])
      else Turn(slots, [])
    case Flush(id) =>
      if id in slots then Turn(slots - {id}, [Sent(Some(id), slots[id].rec)]) else Turn(slots, [])
  }

  /** A worker between two steps; after a panic it does nothing any more. */
  datatype WorkerState = WorkerState(slots: Slots, out: seq<Sent>, panicked: bool)

  function Advance(c: Config, w: WorkerState, st: Step): WorkerState {
    if w.panicked then w
    else match WorkerStep(c, w.slots, st)
      case Panic => w.(panicked := true)
      case Turn(slots, sent) => WorkerState(slots, w.out + sent, false)
  }

  function AdvanceAll(c: Config, w: WorkerState, sts: seq<Step>): WorkerState {
    if sts == [] then w else Advance(c, AdvanceAll(c, w, sts[..|sts| - 1]), sts[|sts| - 1])
  }

  lemma {:induction false} AdvanceAppend(c: Config, w: WorkerState, sts: seq<Step>, more: seq<Step>)
    ensures AdvanceAll(c, w, sts + more) == AdvanceAll(c, AdvanceAll(c, w, sts), more)
  {
    if more == [] {
      assert sts + more == sts;
    } else {
      AdvanceAppend(c, w, sts, more[..|more| - 1]);
      assert (sts + more)[..|sts + more| - 1] == sts + more[..|more| - 1];
    }
  }

  lemma AdvanceOne(c: Config, w: WorkerState, sts: seq<Step>, st: Step)
    ensures AdvanceAll(c, w, sts + [st]) == Advance(c, AdvanceAll(c, w, sts), st)
  {
    assert (sts + [st])[..|sts|] == sts;
  }

  /** The step as container `id` sees it. */
  function EvsOf(c: Config, st: Step, id: Bytes): seq<Ev> {
    match st
    case Receive(r, t1, t2) =>
      (match Classify(c, r)
       case Pass(_) => []
       case Frag(i, f) => if i == id then [Arrive(f, t1, t2)] else [])
    case Clean(i, t) => if i == id then [Visit(t)] else []
    case Flush(i) => if i == id then [Close] else []
  }

  function SentOf(out: seq<Sent>, who: Option<Bytes>): seq<Record> {
    if out == [] then []
    else SentOf(out[..|out| - 1], who) + if out[|out| - 1].ident == who then [out[|out| - 1].rec] else []
  }

  function GlueAll(gs: seq<seq<Fragment>>): seq<Record>
    requires forall i :: 0 <= i < |gs| ==> gs[i] != []
  {
    if gs == [] then []
    else
      GlueAll(gs[..|gs| - 1]) + [Glue(gs[|gs| - 1])]
  }

  // ---- The slot of a container holds what its splitter has open ----

  /** The fragment's own log is in its message under its key, and the key is the container's. */
  ghost predicate Fits(f: Fragment, key: Bytes) {
    f.key == key && key in f.rec.fields && f.rec.fields[key] == Raw(f.log)
  }

  ghost predicate Holds(slots: Slots, id: Bytes, key: Bytes, open: Option<Open>) {
    match open
    case None => id !in slots
    case Some(o) =>
      && o.frags != [] && (forall f :: f in o.frags ==> Fits(f, key))
      && id in slots && slots[id] == Pending(Glue(o.frags), o.lastT)
  }

  ghost predicate GroupsFit(gs: seq<seq<Fragment>>, key: Bytes) {
    forall i :: 0 <= i < |gs| ==> gs[i] != [] && forall f :: f in gs[i] ==> Fits(f, key)
  }

  lemma GlueOne(f: Fragment, key: Bytes)
    requires Fits(f, key)
    ensures Glue([f]) == f.rec
  {
    assert [f][..0] == [] && [] + f.log == f.log;
    assert Join([f]) == f.log;
    assert f.rec.fields[key := Raw(f.log)] == f.rec.fields;
  }

  lemma GlueMore(g: seq<Fragment>, f: Fragment, key: Bytes)
    requires g != [] && g[0].key == key == f.key
    ensures Glue(g + [f]) == Append(Glue(g), key, f.log)
  {
    assert (g + [f])[..|g|] == g;
  }

  lemma GlueAllSnoc(gs: seq<seq<Fragment>>, g: seq<Fragment>)
    requires g != [] && forall i :: 0 <= i < |gs| ==> gs[i] != []
    ensures forall i :: 0 <= i < |gs + [g]| ==> (gs + [g])[i] != []
    ensures GlueAll(gs + [g]) == GlueAll(gs) + [Glue(g)]
  {
    assert (gs + [g])[..|gs|] == gs;
  }

  /** The turn leaves the slot in step with the splitter and sends what the splitter closed. */
  ghost predicate Refines(turn: Turn, s: Split, s': Split, id: Bytes, key: Bytes)
    requires forall i :: 0 <= i < |s.groups| ==> s.groups[i] != []
  {
    && turn.Turn?
    && Holds(turn.slots, id, key, s'.open) && GroupsFit(s'.groups, key)
    && GlueAll(s'.groups) == GlueAll(s.groups) + SentOf(turn.sent, Some(id))
  }

  lemma PlaceNew(c: Config, slots: Slots, id: Bytes, key: Bytes, s: Split, f: Fragment, t1: int, t2: int)
    requires s.open == None && id !in slots && GroupsFit(s.groups, key) && Fits(f, key)
    ensures Refines(Place(c, slots, id, f, t1, t2), s, SplitStep(c, s, Arrive(f, t1, t2)), id, key)
  {
    GlueOne(f, key);
    if f.head {
      assert GlueAll(s.groups) + [] == GlueAll(s.groups);
    } else {
      GlueAllSnoc(s.groups, [f]);
      SentOne(id, f.rec);
    }
  }

  lemma PlaceReplace(c: Config, slots: Slots, id: Bytes, key: Bytes, s: Split, f: Fragment, t1: int, t2: int)
    requires s.open.Some? && Holds(slots, id, key, s.open) && GroupsFit(s.groups, key) && Fits(f, key)
    requires f.head || t1 - s.open.value.lastT > c.wait
    ensures Refines(Place(c, slots, id, f, t1, t2), s, SplitStep(c, s, Arrive(f, t1, t2)), id, key)
  {
    GlueOne(f, key);
    GlueAllSnoc(s.groups, s.open.value.frags);
    SentOne(id, Glue(s.open.value.frags));
  }

  lemma PlaceAppend(c: Config, slots: Slots, id: Bytes, key: Bytes, s: Split, f: Fragment, t1: int, t2: int)
    requires s.open.Some? && Holds(slots, id, key, s.open) && GroupsFit(s.groups, key) && Fits(f, key)
    requires !(f.head || t1 - s.open.value.lastT > c.wait)
    ensures Refines(Place(c, slots, id, f, t1, t2), s, SplitStep(c, s, Arrive(f, t1, t2)), id, key)
  {
    var g := s.open.value.frags;
    assert g[0] in g;
    GlueMore(g, f, key);
    if |Join(g + [f])| >= c.maxLen {
      GlueAllSnoc(s.groups, g + [f]);
      SentOne(id, Glue(g + [f]));
    } else {
      assert GlueAll(s.groups) + [] == GlueAll(s.groups);
    }
  }

  /** A fragment for this container, in the slot map, does what the splitter says. */
  lemma PlaceRefines(c: Config, slots: Slots, id: Bytes, key: Bytes, s: Split, f: Fragment, t1: int, t2: int)
    requires Holds(slots, id, key, s.open) && GroupsFit(s.groups, key) && Fits(f, key)
    ensures Refines(Place(c, slots, id, f, t1, t2), s, SplitStep(c, s, Arrive(f, t1, t2)), id, key)
  {
    if s.open == None {
      PlaceNew(c, slots, id, key, s, f, t1, t2);
    } else if f.head || t1 - s.open.value.lastT > c.wait {
      PlaceReplace(c, slots, id, key, s, f, t1, t2);
    } else {
      PlaceAppend(c, slots, id, key, s, f, t1, t2);
    }
  }

  lemma SentOne(id: Bytes, r: Record)
    ensures SentOf([Sent(Some(id), r)], Some(id)) == [r]
  {
    assert [Sent(Some(id), r)][..0] == [];
  }

  lemma SentOther(s: Sent, who: Option<Bytes>)
    requires s.ident != who
    ensures SentOf([s], who) == []
  {
    assert [s][..0] == [];
  }

  /** The splitter after the step, as container `id` sees it. */
  function Follow(c: Config, s: Split, evs: seq<Ev>): Split
    requires |evs| <= 1
  {
    if evs == [] then s else SplitStep(c, s, evs[0])
  }

  lemma FollowsSplitter(c: Config, evs: seq<Ev>, more: seq<Ev>)
    requires |more| <= 1
    ensures Splitter(c, evs + more) == Follow(c, Splitter(c, evs), more)
  {
    if more == [] {
      assert evs + more == evs;
    } else {
      assert more == [more[0]];
      SplitterSnoc(c, evs, more[0]);
    }
  }

  lemma CloseRefines(slots: Slots, id: Bytes, key: Bytes, s: Split)
    requires s.open.Some? && Holds(slots, id, key, s.open) && GroupsFit(s.groups, key)
    ensures Refines(Turn(slots - {id}, [Sent(Some(id), slots[id].rec)]), s,
                    Split(None, s.groups + [s.open.value.frags]), id, key)
  {
    GlueAllSnoc(s.groups, s.open.value.frags);
    SentOne(id, Glue(s.open.value.frags));
  }

  /** The fragments of container `id` in this step are filed under `key`. */
  ghost predicate Coherent(c: Config, st: Step, id: Bytes, key: Bytes) {
    st.Receive? ==>
      match Classify(c, st.rec)
      case Pass(_) => true
      case Frag(i, f) => i == id ==> f.key == key
  }

  lemma ClassifyFits(c: Config, r: Record)
    ensures Classify(c, r).Frag? ==> Fits(Classify(c, r).frag, Classify(c, r).frag.key)
  {
  }

  /** Non-interference: whatever a worker does, for whichever container, the slot and the records of
      container `id` move exactly as its own splitter does. */
  lemma StepRefines(c: Config, slots: Slots, st: Step, id: Bytes, key: Bytes, s: Split)
    requires Holds(slots, id, key, s.open) && GroupsFit(s.groups, key)
    requires Coherent(c, st, id, key) && WorkerStep(c, slots, st).Turn?
    ensures Refines(WorkerStep(c, slots, st), s, Follow(c, s, EvsOf(c, st, id)), id, key)
  {
    assert GlueAll(s.groups) + [] == GlueAll(s.groups);
    match st {
      case Receive(r, t1, t2) =>
        match Classify(c, r) {
          case Pass(r') => SentOther(Sent(None, r'), Some(id));
          case Frag(i, f) =>
            ClassifyFits(c, r);
            if i == id {
              PlaceRefines(c, slots, id, key, s, f, t1, t2);
            } else {
              OtherPlace(c, slots, i, f, t1, t2, id);
            }
        }
      case Clean(i, t) =>
        if i == id { if s.open.Some? { CloseRefines(slots, id, key, s); } }
        else if i in slots { SentOther(Sent(Some(i), slots[i].rec), Some(id)); }
      case Flush(i) =>
        if i == id { if s.open.Some? { CloseRefines(slots, id, key, s); } }
        else if i in slots { SentOther(Sent(Some(i), slots[i].rec), Some(id)); }
    }
  }

  lemma OtherPlace(c: Config, slots: Slots, i: Bytes, f: Fragment, t1: int, t2: int, id: Bytes)
    requires i != id && Place(c, slots, i, f, t1, t2).Turn?
    ensures var turn := Place(c, slots, i, f, t1, t2);
      && (id in turn.slots <==> id in slots)
      && (id in slots ==> turn.slots[id] == slots[id])
      && SentOf(turn.sent, Some(id)) == []
  {
    var turn := Place(c, slots, i, f, t1, t2);
    if turn.sent != [] {
      assert turn.sent == [turn.sent[0]];
      SentOther(turn.sent[0], Some(id));
    }
  }

  /** The type assertion on a pending message panics only if two messages of one container keep their
      logs under different keys. */
  lemma NoPanic(c: Config, slots: Slots, st: Step, id: Bytes, key: Bytes, s: Split)
    requires st.Receive? && Classify(c, st.rec).Frag? && Classify(c, st.rec).ident == id
    requires Holds(slots, id, key, s.open) && Coherent(c, st, id, key)
    ensures WorkerStep(c, slots, st).Turn?
  {
    if s.open.Some? {
      assert s.open.value.frags[0] in s.open.value.frags;
    }
  }

  /** What is sent for a group carries the bytes of its fragments, in order, unless the tag is stored
      under the very key of the log. */
  lemma SealedLog(c: Config, g: seq<Fragment>)
    requires g != []
    ensures Seal(c, Glue(g)).fields[g[0].key] == Raw(Join(g)) <==> c.tagKey != g[0].key
  {
  }

  function EvsOfAll(c: Config, sts: seq<Step>, id: Bytes): seq<Ev> {
    if sts == [] then [] else EvsOfAll(c, sts[..|sts| - 1], id) + EvsOf(c, sts[|sts| - 1], id)
  }

  lemma {:induction false} SentOfAppend(a: seq<Sent>, b: seq<Sent>, who: Option<Bytes>)
    ensures SentOf(a + b, who) == SentOf(a, who) + SentOf(b, who)
  {
    if b == [] {
      assert a + b == a;
    } else {
      var m := |b| - 1;
      SentOfAppend(a, b[..m], who);
      assert (a + b)[..|a + b| - 1] == a + b[..m];
      var last := if b[m].ident == who then [b[m].rec] else [];
      assert SentOf(a, who) + (SentOf(b[..m], who) + last) == (SentOf(a, who) + SentOf(b[..m], who)) + last;
    }
  }

  /** One worker on its own: if it does not panic, what it sent for a container and what it still holds
      of it are what the container's splitter made of its events. */
  lemma {:induction false} WorkerRefinesSplitter(c: Config, sts: seq<Step>, id: Bytes, key: Bytes)
    requires forall i :: 0 <= i < |sts| ==> Coherent(c, sts[i], id, key)
    requires !AdvanceAll(c, WorkerState(map[], [], false), sts).panicked
    ensures var w, s := AdvanceAll(c, WorkerState(map[], [], false), sts), Splitter(c, EvsOfAll(c, sts, id));
      Holds(w.slots, id, key, s.open) && GroupsFit(s.groups, key) && SentOf(w.out, Some(id)) == GlueAll(s.groups)
  {
    if sts != [] {
      hide WorkerStep;
      hide SplitStep;
      hide Holds;
      hide Coherent;
      hide EvsOf;
      var front, st := sts[..|sts| - 1], sts[|sts| - 1];
      WorkerRefinesSplitter(c, front, id, key);
      var w := AdvanceAll(c, WorkerState(map[], [], false), front);
      FollowsSplitter(c, EvsOfAll(c, front, id), EvsOf(c, st, id)) by { AtMostOne(c, st, id); }
      StepRefines(c, w.slots, st, id, key, Splitter(c, EvsOfAll(c, front, id)));
      SentOfAppend(w.out, WorkerStep(c, w.slots, st).sent, Some(id));
    }
  }

  lemma AtMostOne(c: Config, st: Step, id: Bytes)
    ensures |EvsOf(c, st, id)| <= 1
  {
  }

  /** A worker whose containers keep their logs under one key each never panics, whatever comes. */
  lemma {:induction false} OneKeyNeverPanics(c: Config, sts: seq<Step>, keyOf: Bytes -> Bytes)
    requires forall i, id :: 0 <= i < |sts| ==> Coherent(c, sts[i], id, keyOf(id))
    ensures !AdvanceAll(c, WorkerState(map[], [], false), sts).panicked
  {
    if sts != [] {
      hide WorkerStep;
      hide SplitStep;
      hide Holds;
      hide Coherent;
      hide EvsOf;
      hide Classify;
      var front, st := sts[..|sts| - 1], sts[|sts| - 1];
      OneKeyNeverPanics(c, front, keyOf);
      var w := AdvanceAll(c, WorkerState(map[], [], false), front);
      if st.Receive? && Classify(c, st.rec).Frag? {
        var id := Classify(c, st.rec).ident;
        WorkerRefinesSplitter(c, front, id, keyOf(id));
        NoPanic(c, w.slots, st, id, keyOf(id), Splitter(c, EvsOfAll(c, front, id)));
      } else {
        OthersNeverPanic(c, w.slots, st);
      }
    }
  }

  lemma OthersNeverPanic(c: Config, slots: Slots, st: Step)
    requires st.Receive? ==> Classify(c, st.rec).Pass?
    ensures WorkerStep(c, slots, st).Turn?
  {
    hide Classify;
  }
}
