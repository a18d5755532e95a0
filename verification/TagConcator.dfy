/** The concator among the tag filters (internal/tagfilters/concator_f.go) glues lines together like the receiver does,
    but after the journal: a message that is appended to another leaves its id in ExtIds and is itself discarded. This
    module has one worker with a slot map of its own, and the splitter that says what becomes of one container. */
module TagConcator {
  import opened Options
  import C = Concator

  type Bytes = C.Bytes

  datatype Msg = Msg(id: int, extIds: seq<int>, fields: map<Bytes, C.Field>)

  /** What is configured for the tag; `head` is the compiled regexp, `timeout` five seconds. */
  datatype Config = Config(msgKey: Bytes, identifier: Bytes, head: Bytes -> bool, maxLen: int, timeout: int)

  /** A message that takes part in concatenation, its log already converted to raw bytes. */
  datatype Frag = Frag(msg: Msg, log: Bytes, head: bool)

  datatype Route = Pass(msg: Msg) | Take(ident: Bytes, frag: Frag)

  /** The checks at the top of the loop: a message without identifier or log goes straight through. */
  function Inspect(c: Config, m: Msg): Route {
    match C.BytesAt(m.fields, c.identifier)
    case None => Pass(m)
    case Some(ident) =>
      match C.BytesAt(m.fields, c.msgKey)
      case None => Pass(m)
      case Some(log) => Take(ident, Frag(m.(fields := m.fields[c.msgKey := C.Raw(log)]), log, c.head(log)))
  }

  /** A message takes part iff its identifier and its log are strings or byte slices, and then its log becomes a byte
      slice; any other goes on as it is. */
  lemma InspectIs(c: Config, m: Msg)
    ensures match Inspect(c, m)
      case Take(id, f) =>
        && C.IsBytes(m.fields, c.identifier, id) && C.IsBytes(m.fields, c.msgKey, f.log)
        && f == Frag(Msg(m.id, m.extIds, m.fields[c.msgKey := C.Raw(f.log)]), f.log, c.head(f.log))
      case Pass(p) =>
        p == m && forall id, log :: !(C.IsBytes(m.fields, c.identifier, id) && C.IsBytes(m.fields, c.msgKey, log))
  {
    C.BytesAtIs(m.fields, c.identifier);
    C.BytesAtIs(m.fields, c.msgKey);
  }

  // ---- One worker ----

  datatype Pending = Pending(msg: Msg, lastT: int)

  type Slots = map<Bytes, Pending>

  /** A message sent on or discarded, with the container it was filed under, if any. */
  datatype Sent = Sent(ident: Option<Bytes>, msg: Msg)

  datatype Step = Receive(msg: Msg, now: int) | Visit(ident: Bytes, now: int)

  datatype Turn = Panic | Turn(slots: Slots, out: seq<Sent>, discarded: seq<Sent>)

  predicate HasRaw(m: Msg, key: Bytes) {
    key in m.fields && m.fields[key].Raw?
  }

  /** The pending message with a tail appended to it. */
  function Absorb(m: Msg, key: Bytes, log: Bytes, id: int): Msg
    requires HasRaw(m, key)
  {
    m.(fields := m.fields[key := C.Raw(m.fields[key].b + log)], extIds := m.extIds + [id])
  }

  function Place(c: Config, slots: Slots, id: Bytes, f: Frag, now: int): Turn {
    if id !in slots then
      if f.head then Turn(slots[id := Pending(f.msg, now)], [], []) else Turn(slots, [Sent(Some(id), f.msg)], [])
    else if f.head then Turn(slots[id := Pending(f.msg, now)], [Sent(Some(id), slots[id].msg)], [])
    else if !HasRaw(slots[id].msg, c.msgKey) then Panic
    else
      var m := Absorb(slots[id].msg, c.msgKey, f.log, f.msg.id);
      if |m.fields[c.msgKey].b| >= c.maxLen
      then Turn(slots - {id}, [Sent(Some(id), m)], [Sent(Some(id), f.msg)])
      else Turn(slots[id := Pending(m, now)], [], [Sent(Some(id), f.msg)])
  }

  /** One step: a message, or one slot looked at while there is none. */
  function WorkerStep(c: Config, slots: Slots, st: Step): Turn {
    match st
    case Receive(m, now) =>
      (match Inspect(c, m)
       case Pass(m') => Turn(slots, [Sent(None, m')], [])
       case Take(id, f) => Place(c, slots, id, f, now))
    case Visit(id, now) =>
      if id in slots && now - slots[id].lastT > c.timeout then
        if !HasRaw(slots[id].msg, c.msgKey) then Panic
        else Turn(slots - {id}, [Sent(Some(id), slots[id].msg)], [])
      else Turn(slots, [], [])
  }

  datatype WorkerState = WorkerState(slots: Slots, out: seq<Sent>, discarded: seq<Sent>, panicked: bool)

  function Advance(c: Config, w: WorkerState, st: Step): WorkerState {
    if w.panicked then w
    else match WorkerStep(c, w.slots, st)
      case Panic => w.(panicked := true)
      case Turn(slots, out, discarded) => WorkerState(slots, w.out + out, w.discarded + discarded, false)
  }

  function AdvanceAll(c: Config, w: WorkerState, sts: seq<Step>): WorkerState {
    if sts == [] then w else Advance(c, AdvanceAll(c, w, sts[..|sts| - 1]), sts[|sts| - 1])
  }

  function Start(): WorkerState {
    WorkerState(map[], [], [], false)
  }

  // ---- The splitter: what should become of one container ----

  datatype Ev = Arrive(frag: Frag, now: int) | Tick(now: int)

  datatype Open = Open(frags: seq<Frag>, lastT: int)

  datatype Split = Split(open: Option<Open>, groups: seq<seq<Frag>>)

  function Join(g: seq<Frag>): Bytes {
    if g == [] then [] else Join(g[..|g| - 1]) + g[|g| - 1].log
  }

  function SplitStep(c: Config, s: Split, e: Ev): Split {
    match e
    case Arrive(f, now) =>
      (match s.open
       case None => if f.head then Split(Some(Open([f], now)), s.groups) else Split(None, s.groups + [[f]])
       case Some(o) =>
         if f.head then Split(Some(Open([f], now)), s.groups + [o.frags])
         else if |Join(o.frags + [f])| >= c.maxLen then Split(None, s.groups + [o.frags + [f]])
         else Split(Some(Open(o.frags + [f], now)), s.groups))
    case Tick(now) =>
      if s.open.Some? && now - s.open.value.lastT > c.timeout then Split(None, s.groups + [s.open.value.frags]) else s
  }

  function Splitter(c: Config, evs: seq<Ev>): Split {
    if evs == [] then Split(None, []) else SplitStep(c, Splitter(c, evs[..|evs| - 1]), evs[|evs| - 1])
  }

  /** The messages of a group after its first. */
  function Tails(g: seq<Frag>): seq<Msg> {
    if |g| <= 1 then [] else Tails(g[..|g| - 1]) + [g[|g| - 1].msg]
  }

  function IdsEach(ms: seq<Msg>): seq<int> {
    if ms == [] then [] else IdsEach(ms[..|ms| - 1]) + [ms[|ms| - 1].id]
  }

  /** The record made of a group: the first message with the logs of all of them and the ids of the others. */
  function Glue(c: Config, g: seq<Frag>): Msg
    requires g != []
  {
    g[0].msg.(fields := g[0].msg.fields[c.msgKey := C.Raw(Join(g))], extIds := g[0].msg.extIds + IdsEach(Tails(g)))
  }

  /** Apart from the log and the ExtIds the record is its first message. */
  lemma GlueIs(c: Config, g: seq<Frag>)
    requires g != []
    ensures var m, r := g[0].msg, Glue(c, g);
      && r.id == m.id && r.extIds == m.extIds + IdsEach(Tails(g)) && r.fields.Keys == m.fields.Keys + {c.msgKey}
      && r.fields[c.msgKey] == C.Raw(Join(g))
      && forall k :: k in m.fields && k != c.msgKey ==> r.fields[k] == m.fields[k]
  {
  }

  function GlueAll(c: Config, gs: seq<seq<Frag>>): seq<Msg>
    requires forall i :: 0 <= i < |gs| ==> gs[i] != []
  {
    if gs == [] then [] else GlueAll(c, gs[..|gs| - 1]) + [Glue(c, gs[|gs| - 1])]
  }

  function TailsAll(gs: seq<seq<Frag>>): seq<Msg> {
    if gs == [] then [] else TailsAll(gs[..|gs| - 1]) + Tails(gs[|gs| - 1])
  }

  function Flatten(gs: seq<seq<Frag>>): seq<Frag> {
    if gs == [] then [] else Flatten(gs[..|gs| - 1]) + gs[|gs| - 1]
  }

  function OpenFrags(s: Split): seq<Frag> {
    if s.open.Some? then s.open.value.frags else []
  }

  // ---- The worker does for each container what its splitter says ----

  /** What the step is to container `id`. */
  function EvsOf(c: Config, st: Step, id: Bytes): (evs: seq<Ev>)
    ensures |evs| <= 1
  {
    match st
    case Receive(m, now) =>
      (match Inspect(c, m)
       case Pass(_) => []
       case Take(i, f) => if i == id then [Arrive(f, now)] else [])
    case Visit(i, now) => if i == id then [Tick(now)] else []
  }

  /** A message that takes part arrives at its container with the clock of its turn, and a look at a slot is one at that
      container. */
  lemma EventsAre(c: Config, st: Step, id: Bytes)
    ensures EvsOf(c, st, id) == match st
      case Visit(i, now) => if i == id then [Tick(now)] else []
      case Receive(m, now) =>
        if Inspect(c, m).Take? && Inspect(c, m).ident == id then [Arrive(Inspect(c, m).frag, now)] else []
  {
    hide Inspect;
  }

  function EvsOfAll(c: Config, sts: seq<Step>, id: Bytes): seq<Ev> {
    if sts == [] then [] else EvsOfAll(c, sts[..|sts| - 1], id) + EvsOf(c, sts[|sts| - 1], id)
  }

  function For(out: seq<Sent>, who: Option<Bytes>): seq<Msg> {
    if out == [] then []
    else For(out[..|out| - 1], who) + if out[|out| - 1].ident == who then [out[|out| - 1].msg] else []
  }

  ghost predicate Fits(c: Config, f: Frag) {
    c.msgKey in f.msg.fields && f.msg.fields[c.msgKey] == C.Raw(f.log)
  }

  ghost predicate AllFit(c: Config, g: seq<Frag>) {
    g != [] && forall f :: f in g ==> Fits(c, f)
  }

  ghost predicate GroupsFit(c: Config, gs: seq<seq<Frag>>) {
    forall i :: 0 <= i < |gs| ==> gs[i] != [] && AllFit(c, gs[i])
  }

  ghost predicate Holds(c: Config, slots: Slots, id: Bytes, open: Option<Open>) {
    match open
    case None => id !in slots
    case Some(o) => AllFit(c, o.frags) && id in slots && slots[id] == Pending(Glue(c, o.frags), o.lastT)
  }

  /** What a container has had discarded: the tails of its groups, the open one included. */
  function Discards(s: Split): seq<Msg> {
    TailsAll(s.groups) + Tails(OpenFrags(s))
  }

  ghost predicate Refines(c: Config, turn: Turn, s: Split, s': Split, id: Bytes)
    requires forall i :: 0 <= i < |s.groups| ==> s.groups[i] != []
  {
    && turn.Turn?
    && Holds(c, turn.slots, id, s'.open) && GroupsFit(c, s'.groups)
    && GlueAll(c, s'.groups) == GlueAll(c, s.groups) + For(turn.out, Some(id))
    && Discards(s') == Discards(s) + For(turn.discarded, Some(id))
  }

  lemma InspectFits(c: Config, m: Msg)
    ensures Inspect(c, m).Take? ==> Fits(c, Inspect(c, m).frag)
  {
  }

  lemma GlueOne(c: Config, f: Frag)
    requires Fits(c, f)
    ensures Glue(c, [f]) == f.msg && AllFit(c, [f]) && Tails([f]) == []
  {
    assert [f][..0] == [] && [] + f.log == f.log;
    assert Join([f]) == f.log;
    assert f.msg.fields[c.msgKey := C.Raw(f.log)] == f.msg.fields;
    assert f.msg.extIds + [] == f.msg.extIds;
  }

  lemma TailsMore(g: seq<Frag>, f: Frag)
    requires g != []
    ensures Tails(g + [f]) == Tails(g) + [f.msg]
    ensures IdsEach(Tails(g + [f])) == IdsEach(Tails(g)) + [f.msg.id]
    ensures Join(g + [f]) == Join(g) + f.log
  {
    assert (g + [f])[..|g|] == g;
    assert (Tails(g) + [f.msg])[..|Tails(g)|] == Tails(g);
  }

  lemma GlueMore(c: Config, g: seq<Frag>, f: Frag)
    requires AllFit(c, g) && Fits(c, f)
    ensures HasRaw(Glue(c, g), c.msgKey) && AllFit(c, g + [f])
    ensures Glue(c, g + [f]) == Absorb(Glue(c, g), c.msgKey, f.log, f.msg.id)
  {
    TailsMore(g, f);
    var m := g[0].msg;
    assert m.extIds + (IdsEach(Tails(g)) + [f.msg.id]) == (m.extIds + IdsEach(Tails(g))) + [f.msg.id];
    assert m.fields[c.msgKey := C.Raw(Join(g))][c.msgKey := C.Raw(Join(g) + f.log)]
        == m.fields[c.msgKey := C.Raw(Join(g) + f.log)];
  }

  lemma GroupSnoc(c: Config, gs: seq<seq<Frag>>, g: seq<Frag>)
    requires GroupsFit(c, gs) && AllFit(c, g)
    ensures GroupsFit(c, gs + [g])
    ensures GlueAll(c, gs + [g]) == GlueAll(c, gs) + [Glue(c, g)]
    ensures TailsAll(gs + [g]) == TailsAll(gs) + Tails(g)
  {
    assert (gs + [g])[..|gs|] == gs;
  }

  lemma ForOne(s: Sent, who: Option<Bytes>)
    ensures For([s], who) == if s.ident == who then [s.msg] else []
    ensures For([], who) == []
  {
    assert [s][..0] == [];
  }

  lemma Nothing<T>(a: seq<T>, b: seq<T>, d: seq<T>)
    ensures a + [] == a && (a + b) + d == a + (b + d)
  {
  }

  lemma PlaceNew(c: Config, slots: Slots, id: Bytes, s: Split, f: Frag, now: int)
    requires s.open == None && id !in slots && GroupsFit(c, s.groups) && Fits(c, f)
    ensures Refines(c, Place(c, slots, id, f, now), s, SplitStep(c, s, Arrive(f, now)), id)
  {
    GlueOne(c, f);
    ForOne(Sent(Some(id), f.msg), Some(id));
    Nothing(GlueAll(c, s.groups), [], []);
    Nothing(TailsAll(s.groups), [], []);
    if !f.head { GroupSnoc(c, s.groups, [f]); }
  }

  lemma PlaceReplace(c: Config, slots: Slots, id: Bytes, s: Split, f: Frag, now: int)
    requires s.open.Some? && Holds(c, slots, id, s.open) && GroupsFit(c, s.groups) && Fits(c, f) && f.head
    ensures Refines(c, Place(c, slots, id, f, now), s, SplitStep(c, s, Arrive(f, now)), id)
  {
    var g := s.open.value.frags;
    GlueOne(c, f);
    GroupSnoc(c, s.groups, g);
    ForOne(Sent(Some(id), Glue(c, g)), Some(id));
    Nothing(TailsAll(s.groups) + Tails(g), [], []);
  }

  /** A tail that makes the record long enough to be sent. */
  lemma PlaceLast(c: Config, slots: Slots, id: Bytes, s: Split, f: Frag, now: int, g: seq<Frag>)
    requires GroupsFit(c, s.groups) && AllFit(c, g + [f]) && g != []
    ensures Refines(c, Turn(slots - {id}, [Sent(Some(id), Glue(c, g + [f]))], [Sent(Some(id), f.msg)]),
                    Split(Some(Open(g, now)), s.groups), Split(None, s.groups + [g + [f]]), id)
  {
    hide Join;
    hide IdsEach;
    hide Fits;
    hide Glue;
    hide Tails;
    hide TailsAll;
    hide GlueAll;
    hide AllFit;
    TailsMore(g, f);
    ForOne(Sent(Some(id), f.msg), Some(id));
    ForOne(Sent(Some(id), Glue(c, g + [f])), Some(id));
    Nothing(TailsAll(s.groups), Tails(g), [f.msg]);
    GroupSnoc(c, s.groups, g + [f]);
    Nothing(TailsAll(s.groups) + Tails(g + [f]), [], []);
    NoTails();
  }

  /** A tail that stays pending with the record. */
  lemma PlaceMore(c: Config, slots: Slots, id: Bytes, s: Split, f: Frag, now: int, g: seq<Frag>)
    requires GroupsFit(c, s.groups) && AllFit(c, g + [f]) && g != []
    ensures Refines(c, Turn(slots[id := Pending(Glue(c, g + [f]), now)], [], [Sent(Some(id), f.msg)]),
                    Split(Some(Open(g, now)), s.groups), Split(Some(Open(g + [f], now)), s.groups), id)
  {
    hide Join;
    hide IdsEach;
    hide Fits;
    hide Glue;
    hide Tails;
    hide TailsAll;
    hide GlueAll;
    hide AllFit;
    TailsMore(g, f);
    ForOne(Sent(Some(id), f.msg), Some(id));
    Nothing(TailsAll(s.groups), Tails(g), [f.msg]);
    Nothing(GlueAll(c, s.groups), [], []);
  }

  lemma RefinesFrom(c: Config, turn: Turn, s: Split, t: Split, s': Split, id: Bytes)
    requires GroupsFit(c, s.groups) && t.groups == s.groups && OpenFrags(t) == OpenFrags(s)
    requires Refines(c, turn, t, s', id)
    ensures Refines(c, turn, s, s', id)
  {
  }

  lemma PlaceAppend(c: Config, slots: Slots, id: Bytes, s: Split, f: Frag, now: int)
    requires s.open.Some? && Holds(c, slots, id, s.open) && GroupsFit(c, s.groups) && Fits(c, f) && !f.head
    ensures Refines(c, Place(c, slots, id, f, now), s, SplitStep(c, s, Arrive(f, now)), id)
  {
    var g := s.open.value.frags;
    assert g != [];
    hide Glue;
    hide Absorb;
    hide AllFit;
    hide Fits;
    hide Refines;
    GlueMore(c, g, f);
    GlueLog(c, g + [f]);
    if |Join(g + [f])| >= c.maxLen {
      PlaceLast(c, slots, id, s, f, now, g);
    } else {
      PlaceMore(c, slots, id, s, f, now, g);
    }
    RefinesFrom(c, Place(c, slots, id, f, now), s, Split(Some(Open(g, now)), s.groups),
                SplitStep(c, s, Arrive(f, now)), id);
  }

  lemma NoTails()
    ensures Tails([]) == []
  {
  }

  lemma GlueLog(c: Config, g: seq<Frag>)
    requires g != []
    ensures HasRaw(Glue(c, g), c.msgKey) && Glue(c, g).fields[c.msgKey].b == Join(g)
  {
  }

  lemma CloseRefines(c: Config, slots: Slots, id: Bytes, s: Split, g: seq<Frag>)
    requires GroupsFit(c, s.groups) && AllFit(c, g) && OpenFrags(s) == g && g != []
    ensures Refines(c, Turn(slots - {id}, [Sent(Some(id), Glue(c, g))], []), s, Split(None, s.groups + [g]), id)
  {
    hide Glue;
    hide Tails;
    hide TailsAll;
    hide GlueAll;
    hide AllFit;
    GroupSnoc(c, s.groups, g);
    ForOne(Sent(Some(id), Glue(c, g)), Some(id));
    Nothing(TailsAll(s.groups) + Tails(g), [], []);
    NoTails();
  }

  lemma TickRefines(c: Config, slots: Slots, id: Bytes, s: Split, now: int)
    requires Holds(c, slots, id, s.open) && GroupsFit(c, s.groups)
    ensures Refines(c, WorkerStep(c, slots, Visit(id, now)), s, SplitStep(c, s, Tick(now)), id)
  {
    hide Glue;
    hide Discards;
    Nothing(GlueAll(c, s.groups), [], []);
    Nothing(Discards(s), [], []);
    ForOne(Sent(None, Msg(0, [], map[])), Some(id));
    if s.open.Some? {
      GlueLog(c, s.open.value.frags);
      CloseRefines(c, slots, id, s, s.open.value.frags);
    }
  }

  /** The splitter after what a step is to it. */
  function Follow(c: Config, s: Split, evs: seq<Ev>): Split
    requires |evs| <= 1
  {
    if evs == [] then s else SplitStep(c, s, evs[0])
  }

  /** What another container's turn leaves alone. */
  ghost predicate Untouched(slots: Slots, turn: Turn, id: Bytes) {
    turn.Turn? ==>
      && (id in turn.slots <==> id in slots) && (id in slots ==> turn.slots[id] == slots[id])
      && For(turn.out, Some(id)) == [] && For(turn.discarded, Some(id)) == []
  }

  lemma OtherUntouched(c: Config, slots: Slots, st: Step, id: Bytes)
    requires EvsOf(c, st, id) == []
    ensures Untouched(slots, WorkerStep(c, slots, st), id)
  {
    hide Inspect;
    var turn := WorkerStep(c, slots, st);
    if turn.Turn? {
      if turn.out != [] { assert turn.out == [turn.out[0]]; ForOne(turn.out[0], Some(id)); }
      if turn.discarded != [] { assert turn.discarded == [turn.discarded[0]]; ForOne(turn.discarded[0], Some(id)); }
    }
  }

  /** Non-interference: whatever the worker does, container `id` moves exactly as its own splitter does, and the worker
      does not panic on its account. */
  lemma StepRefines(c: Config, slots: Slots, st: Step, id: Bytes, s: Split)
    requires Holds(c, slots, id, s.open) && GroupsFit(c, s.groups)
    ensures EvsOf(c, st, id) != [] ==> WorkerStep(c, slots, st).Turn?
    ensures WorkerStep(c, slots, st).Turn? ==>
              Refines(c, WorkerStep(c, slots, st), s, Follow(c, s, EvsOf(c, st, id)), id)
  {
    if EvsOf(c, st, id) == [] {
      hide WorkerStep;
      hide EvsOf;
      hide Glue;
      OtherUntouched(c, slots, st, id);
      Nothing(GlueAll(c, s.groups), [], []);
      Nothing(Discards(s), [], []);
    } else {
      hide Refines;
      hide SplitStep;
      match st
      case Receive(m, now) =>
        var f := Inspect(c, m).frag;
        InspectFits(c, m);
        ArriveRefines(c, slots, id, s, f, now);
      case Visit(i, now) => TickRefines(c, slots, id, s, now);
    }
  }

  lemma ArriveRefines(c: Config, slots: Slots, id: Bytes, s: Split, f: Frag, now: int)
    requires Holds(c, slots, id, s.open) && GroupsFit(c, s.groups) && Fits(c, f)
    ensures Refines(c, Place(c, slots, id, f, now), s, SplitStep(c, s, Arrive(f, now)), id)
    ensures Place(c, slots, id, f, now).Turn?
  {
    hide Place;
    hide SplitStep;
    if s.open == None { PlaceNew(c, slots, id, s, f, now); }
    else if f.head { PlaceReplace(c, slots, id, s, f, now); }
    else { PlaceAppend(c, slots, id, s, f, now); }
  }

  lemma SplitterSnoc(c: Config, evs: seq<Ev>, more: seq<Ev>)
    requires |more| <= 1
    ensures Splitter(c, evs + more) == Follow(c, Splitter(c, evs), more)
  {
    if more == [] {
      assert evs + more == evs;
    } else {
      assert (evs + more)[..|evs|] == evs && more == [more[0]];
    }
  }

  lemma {:induction false} ForAppend(a: seq<Sent>, b: seq<Sent>, who: Option<Bytes>)
    ensures For(a + b, who) == For(a, who) + For(b, who)
    decreases |b|
  {
    if b == [] {
      assert a + b == a;
    } else {
      var b' := b[..|b| - 1];
      ForAppend(a, b', who);
      assert (a + b)[..|a + b| - 1] == a + b';
      Nothing(For(a, who), For(b', who), if b[|b| - 1].ident == who then [b[|b| - 1].msg] else []);
    }
  }

  /** The container that a step is about. */
  function Subject(c: Config, st: Step): Option<Bytes> {
    match st
    case Visit(id, _) => Some(id)
    case Receive(m, _) => match Inspect(c, m) case Pass(_) => None case Take(id, _) => Some(id)
  }

  lemma SubjectSees(c: Config, st: Step)
    ensures Subject(c, st).Some? ==> EvsOf(c, st, Subject(c, st).value) != []
    ensures Subject(c, st).None? ==> forall slots :: WorkerStep(c, slots, st).Turn?
  {
  }

  ghost predicate Follows(c: Config, w: WorkerState, evs: seq<Ev>, id: Bytes) {
    var s := Splitter(c, evs);
    && Holds(c, w.slots, id, s.open) && GroupsFit(c, s.groups)
    && For(w.out, Some(id)) == GlueAll(c, s.groups)
    && For(w.discarded, Some(id)) == Discards(s)
  }

  lemma AdvanceFollows(c: Config, w: WorkerState, st: Step, evs: seq<Ev>, id: Bytes)
    requires !w.panicked && Follows(c, w, evs, id)
    ensures EvsOf(c, st, id) != [] ==> WorkerStep(c, w.slots, st).Turn?
    ensures WorkerStep(c, w.slots, st).Turn? ==> Follows(c, Advance(c, w, st), evs + EvsOf(c, st, id), id)
  {
    hide WorkerStep;
    hide EvsOf;
    hide Holds;
    hide GroupsFit;
    hide Splitter;
    hide GlueAll;
    hide For;
    var s := Splitter(c, evs);
    assert forall i :: 0 <= i < |s.groups| ==> s.groups[i] != [] by { NonEmpty(c, s.groups); }
    StepRefines(c, w.slots, st, id, s);
    SplitterSnoc(c, evs, EvsOf(c, st, id));
    if WorkerStep(c, w.slots, st).Turn? {
      ForAppend(w.out, WorkerStep(c, w.slots, st).out, Some(id));
      ForAppend(w.discarded, WorkerStep(c, w.slots, st).discarded, Some(id));
    }
  }

  lemma NonEmpty(c: Config, gs: seq<seq<Frag>>)
    requires GroupsFit(c, gs)
    ensures forall i :: 0 <= i < |gs| ==> gs[i] != []
  {
  }

  /** For every sequence of messages and visits: the worker never panics, and for each container what it sent, what it
      holds and what it discarded are what the container's splitter made of its own messages and visits. */
  lemma {:induction false} WorkerRefinesSplitter(c: Config, sts: seq<Step>)
    ensures !AdvanceAll(c, Start(), sts).panicked
    ensures forall id :: Follows(c, AdvanceAll(c, Start(), sts), EvsOfAll(c, sts, id), id)
    decreases |sts|
  {
    if sts == [] {
    } else {
      hide WorkerStep;
      hide EvsOf;
      hide Follows;
      hide Inspect;
      hide Subject;
      var front, st := sts[..|sts| - 1], sts[|sts| - 1];
      var w := AdvanceAll(c, Start(), front);
      WorkerRefinesSplitter(c, front);
      SubjectSees(c, st);
      if Subject(c, st).Some? {
        AdvanceFollows(c, w, st, EvsOfAll(c, front, Subject(c, st).value), Subject(c, st).value);
      }
      forall id ensures Follows(c, AdvanceAll(c, Start(), sts), EvsOfAll(c, sts, id), id) {
        AdvanceFollows(c, w, st, EvsOfAll(c, front, id), id);
      }
    }
  }
}
