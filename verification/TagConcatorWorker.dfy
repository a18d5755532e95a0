/** StartNewConcator: the loop of one concator over its slot map of pending message objects. */
module TagConcatorWorker {
  import opened Options
  import C = Concator
  import opened TagConcator

  class FluentMsg {
    var ID: int
    var ExtIds: seq<int>
    var Message: map<Bytes, C.Field>

    constructor (m: Msg)
      ensures View() == m
    {
      ID, ExtIds, Message := m.id, m.extIds, m.fields;
    }

    function View(): Msg
      reads this
    {
      Msg(ID, ExtIds, Message)
    }

    method Fill(m: Msg)
      modifies this
      ensures View() == m
    {
      ID, ExtIds, Message := m.id, m.extIds, m.fields;
    }

    /** Appends the log and the id of a tail. */
    method Append(key: Bytes, log: Bytes, id: int)
      requires HasRaw(View(), key)
      modifies this
      ensures View() == Absorb(old(View()), key, log, id)
    {
      Message := Message[key := C.Raw(Message[key].b + log)];
      ExtIds := ExtIds + [id];
    }
  }

  class PendingMsg {
    var msg: FluentMsg
    var lastT: int

    constructor (m: FluentMsg, t: int)
      ensures msg == m && lastT == t
    {
      msg, lastT := m, t;
    }

    method Set(m: FluentMsg, t: int)
      modifies this
      ensures msg == m && lastT == t
    {
      msg := m;
      lastT := t;
    }

    /** The message gets the log and the id of a tail, and the clock starts over. */
    method Append(key: Bytes, log: Bytes, id: int, now: int)
      requires HasRaw(msg.View(), key)
      modifies this`lastT, msg
      ensures msg.View() == Absorb(old(msg.View()), key, log, id) && lastT == now
    {
      msg.Append(key, log, id);
      lastT := now;
    }
  }

  class Worker {
    const c: Config
    var slot: map<Bytes, PendingMsg>
    var pMsgPool: set<PendingMsg>
    // Message objects that may come back, once whoever got them has put them into the pool they share with the rest of
    // the program.
    var msgPool: set<FluentMsg>
    // outChan and the commit channel, and what the messages said when they were sent there.
    var outChan: seq<FluentMsg>
    var waitCommitChan: seq<FluentMsg>
    ghost var out: seq<Sent>
    ghost var discarded: seq<Sent>

    ghost function Waiting(): set<FluentMsg>
      reads this`slot, slot.Values
    {
      set i | i in slot :: slot[i].msg
    }

    ghost function Msgs(): set<FluentMsg>
      reads this`slot, slot.Values, this`msgPool
    {
      Waiting() + msgPool
    }

    ghost function Pendings(): set<PendingMsg>
      reads this`slot, this`pMsgPool
    {
      slot.Values + pMsgPool
    }

    /** Slots share neither pending objects nor messages, and what may come back is in no slot. */
    ghost predicate Valid()
      reads this`slot, this`pMsgPool, this`msgPool, slot.Values
    {
      Separate() && Waiting() !! msgPool
    }

    ghost predicate Separate()
      reads this`slot, this`pMsgPool, slot.Values
    {
      && (forall i, j :: i in slot && j in slot && i != j ==> slot[i] != slot[j] && slot[i].msg != slot[j].msg)
      && (forall i :: i in slot ==> slot[i] !in pMsgPool)
    }

    ghost function View(): Slots
      reads this`slot, slot.Values, Waiting()
    {
      map i | i in slot :: Pending(slot[i].msg.View(), slot[i].lastT)
    }

    ghost function State(): WorkerState
      reads this`slot, this`out, this`discarded, slot.Values, Waiting()
    {
      WorkerState(View(), out, discarded, false)
    }

    constructor (cfg: Config)
      ensures Valid() && State() == Start() && c == cfg && Msgs() == {} && Pendings() == {}
      ensures outChan == [] && waitCommitChan == []
    {
      c, slot, pMsgPool, msgPool, outChan, waitCommitChan, out, discarded := cfg, map[], {}, {}, [], [], [], [];
    }

    /** The dispatcher of the tag pipelines hands over a message: an object that has come back, whatever it held before,
        or one that the worker has not seen yet. */
    method Arrive(m: Msg) returns (msg: FluentMsg)
      requires Valid()
      modifies this`msgPool, msgPool
      ensures msg.View() == m && (fresh(msg) || msg in old(msgPool))
      ensures Valid() && msg !in Msgs() && View() == old(View()) && Msgs() <= old(Msgs())
    {
      if {
        case true =>
          msg := new FluentMsg(m);
        case msgPool != {} =>
          msg :| msg in msgPool;
          msgPool := msgPool - {msg};
          msg.Fill(m);
      }
    }

    lemma KeysOfView()
      ensures View().Keys == slot.Keys
    {
    }

    method SendOut(msg: FluentMsg, ghost who: Option<Bytes>)
      requires Valid() && msg !in Waiting()
      modifies this`outChan, this`out, this`msgPool
      ensures Valid() && Msgs() == old(Msgs()) + {msg}
      ensures View() == old(View()) && Waiting() == old(Waiting()) && Pendings() == old(Pendings())
      ensures outChan == old(outChan) + [msg] && out == old(out) + [Sent(who, msg.View())]
    {
      outChan := outChan + [msg];
      out := out + [Sent(who, msg.View())];
      msgPool := msgPool + {msg};
    }

    method DiscardMsg(msg: FluentMsg, ghost who: Option<Bytes>)
      requires Valid() && msg !in Waiting()
      modifies this`waitCommitChan, this`discarded, this`msgPool
      ensures Valid() && Msgs() == old(Msgs()) + {msg}
      ensures waitCommitChan == old(waitCommitChan) + [msg] && discarded == old(discarded) + [Sent(who, msg.View())]
    {
      waitCommitChan := waitCommitChan + [msg];
      discarded := discarded + [Sent(who, msg.View())];
      msgPool := msgPool + {msg};
    }

    /** A pending object from the pool, whatever it held before, or a new one. */
    method GetPending(msg: FluentMsg, now: int) returns (pmsg: PendingMsg)
      requires Valid()
      modifies this`pMsgPool, pMsgPool
      ensures pmsg.msg == msg && pmsg.lastT == now
      ensures fresh(pmsg) || pmsg in old(pMsgPool)
      ensures pMsgPool == old(pMsgPool) - {pmsg}
      ensures Valid() && View() == old(View()) && Waiting() == old(Waiting()) && pmsg !in slot.Values
    {
      if {
        case true =>
          pmsg := new PendingMsg(msg, now);
        case pMsgPool != {} =>
          pmsg :| pmsg in pMsgPool;
          pMsgPool := pMsgPool - {pmsg};
          pmsg.Set(msg, now);
      }
    }

    /** The checks of identifier and log; a text log is converted to raw bytes in place. */
    method Inspect(msg: FluentMsg) returns (take: bool, identifier: Bytes, msgData: Bytes)
      modifies msg`Message
      ensures TagConcator.Inspect(c, old(msg.View())) == if !take then Pass(msg.View())
        else Take(identifier, Frag(msg.View(), msgData, c.head(msgData)))
    {
      take, identifier, msgData := false, [], [];
      if c.identifier !in msg.Message || msg.Message[c.identifier].Other? {
        return;
      }
      identifier := msg.Message[c.identifier].b;
      if c.msgKey !in msg.Message || msg.Message[c.msgKey].Other? {
        return;
      }
      msgData := msg.Message[c.msgKey].b;
      msg.Message := msg.Message[c.msgKey := C.Raw(msgData)];
      take := true;
    }

    /** The loop body for one message. */
    method Receive(msg: FluentMsg, now: int) returns (panicked: bool)
      requires Valid() && msg !in Msgs()
      modifies this, msg, slot.Values, Waiting(), pMsgPool
      ensures Valid() && Msgs() <= old(Msgs()) + {msg} && fresh(Pendings() - old(Pendings()))
      ensures Made(old(State()), WorkerStep(c, old(View()), Step.Receive(old(msg.View()), now)), panicked)
    {
      StepIs(c, View(), msg.View(), now);
      hide *;
      var take, identifier, msgData := InspectAside(msg);
      if !take {
        panicked := false;
        PassThrough(msg);
      } else {
        panicked := PlaceMsg(identifier, msg, msgData, c.head(msgData), now);
      }
    }

    /** The checks on a message that is in no slot leave everything else as it is. */
    method InspectAside(msg: FluentMsg) returns (take: bool, identifier: Bytes, msgData: Bytes)
      requires Valid() && msg !in Msgs()
      modifies msg`Message
      ensures Valid() && Msgs() == old(Msgs()) && Pendings() == old(Pendings())
      ensures State() == old(State()) && View() == old(View())
      ensures TagConcator.Inspect(c, old(msg.View())) == if !take then Pass(msg.View())
        else Take(identifier, Frag(msg.View(), msgData, c.head(msgData)))
    {
      hide TagConcator.Inspect;
      take, identifier, msgData := Inspect(msg);
    }

    method PassThrough(msg: FluentMsg)
      requires Valid() && msg !in Msgs()
      modifies this`outChan, this`out, this`msgPool
      ensures Valid() && Msgs() <= old(Msgs()) + {msg} && Pendings() == old(Pendings())
      ensures Made(old(State()), Turn(old(View()), [Sent(None, msg.View())], []), false)
    {
      SendOut(msg, None);
    }

    /** The slot part of the loop body. */
    method PlaceMsg(id: Bytes, msg: FluentMsg, msgData: Bytes, head: bool, now: int) returns (panicked: bool)
      requires Valid() && msg !in Msgs()
      modifies this, slot.Values, Waiting(), pMsgPool
      ensures Valid() && Msgs() <= old(Msgs()) + {msg} && fresh(Pendings() - old(Pendings()))
      ensures Made(old(State()), Place(c, old(View()), id, Frag(msg.View(), msgData, head), now), panicked)
    {
      hide Valid;
      hide Msgs;
      hide Place;
      hide Made;
      hide View;
      if id !in slot {
        panicked := false;
        PlaceNew(id, msg, msgData, head, now);
      } else {
        panicked := PlaceKnown(id, msg, msgData, head, now);
      }
    }

    /** For a container without a slot. */
    method PlaceNew(id: Bytes, msg: FluentMsg, msgData: Bytes, head: bool, now: int)
      requires Valid() && msg !in Msgs() && id !in slot
      modifies this, pMsgPool
      ensures Valid() && Msgs() <= old(Msgs()) + {msg} && fresh(Pendings() - old(Pendings()))
      ensures Made(old(State()), Place(c, old(View()), id, Frag(msg.View(), msgData, head), now), false)
    {
      KeysOfView();
      hide Valid;
      hide Pendings;
      hide View;
      if !head {
        SendOut(msg, Some(id));
      } else {
        StartRecord(id, msg, now);
      }
    }

    /** What a turn of the model has done to the objects. */
    ghost predicate Made(was: WorkerState, turn: Turn, panicked: bool)
      reads this`slot, this`out, this`discarded, slot.Values, Waiting()
    {
      && panicked == turn.Panic?
      && (!panicked ==>
            View() == turn.slots && out == was.out + turn.out && discarded == was.discarded + turn.discarded)
    }

    /** For a container that has a slot. */
    method PlaceKnown(id: Bytes, msg: FluentMsg, msgData: Bytes, head: bool, now: int) returns (panicked: bool)
      requires Valid() && msg !in Msgs() && id in slot
      modifies this, slot[id], slot[id].msg
      ensures Valid() && Msgs() <= old(Msgs()) + {msg} && Pendings() <= old(Pendings())
      ensures Made(old(State()), Place(c, old(View()), id, Frag(msg.View(), msgData, head), now), panicked)
    {
      hide Absorb;
      hide Valid;
      panicked := false;
      if head {
        Replace(id, msg, now);
      } else if c.msgKey !in slot[id].msg.Message || !slot[id].msg.Message[c.msgKey].Raw? {
        panicked := true;
      } else {
        Concat(id, msg, msgData, now);
      }
    }

    /** A head for a new container. */
    method StartRecord(id: Bytes, msg: FluentMsg, now: int)
      requires Valid() && msg !in Msgs() && id !in slot
      modifies this`pMsgPool, this`slot, pMsgPool
      ensures Valid() && Msgs() <= old(Msgs()) + {msg} && fresh(Pendings() - old(Pendings()))
      ensures View() == old(View())[id := Pending(msg.View(), now)]
    {
      var pmsg := GetPending(msg, now);
      SetSlot(id, pmsg);
    }

    method SetSlot(id: Bytes, pmsg: PendingMsg)
      requires Valid() && id !in slot && pmsg !in pMsgPool && pmsg !in slot.Values && pmsg.msg !in Msgs()
      modifies this`slot
      ensures Valid() && Waiting() <= old(Waiting()) + {pmsg.msg} && slot.Values <= old(slot.Values) + {pmsg}
      ensures View() == old(View())[id := Pending(pmsg.msg.View(), pmsg.lastT)]
    {
      slot := slot[id := pmsg];
      assert forall i :: i in old(slot) ==> slot[i] == old(slot)[i];
    }

    /** A head for a known container: what waits is sent, and its pending object is reused in place. */
    method Replace(id: Bytes, msg: FluentMsg, now: int)
      requires Valid() && msg !in Msgs() && id in slot
      modifies this`outChan, this`out, this`msgPool, slot[id]
      ensures Valid() && Msgs() <= old(Msgs()) + {msg} && slot == old(slot)
      ensures View() == old(View())[id := Pending(msg.View(), now)]
      ensures out == old(out) + [Sent(Some(id), old(View())[id].msg)]
    {
      hide *;
      var oldMsg := slot[id].msg;
      Swap(id, msg, now);
      SendOut(oldMsg, Some(id));
    }

    /** Puts a message into a slot in the place of another. */
    method Swap(id: Bytes, msg: FluentMsg, now: int)
      requires Valid() && msg !in Msgs() && id in slot
      modifies slot[id]
      ensures Valid() && old(slot[id].msg) !in Waiting() && Msgs() + {old(slot[id].msg)} == old(Msgs()) + {msg}
      ensures id in old(View()) && old(View())[id].msg == old(slot[id].msg.View())
      ensures View() == old(View())[id := Pending(msg.View(), now)]
    {
      slot[id].Set(msg, now);
      assert slot[id].msg == msg && forall i :: i in slot && i != id ==> slot[i].msg == old(slot[i].msg);
    }

    /** A tail: its bytes and its id go to the pending message, and it is discarded itself. */
    method Concat(id: Bytes, msg: FluentMsg, msgData: Bytes, now: int)
      requires Valid() && msg !in Msgs() && id in slot
      requires HasRaw(slot[id].msg.View(), c.msgKey)
      modifies this, slot[id], slot[id].msg
      ensures Valid() && Msgs() <= old(Msgs()) + {msg} && Pendings() <= old(Pendings())
      ensures Absorbed(old(View()), old(out), id, Absorb(old(View())[id].msg, c.msgKey, msgData, old(msg.ID)), now)
      ensures discarded == old(discarded) + [Sent(Some(id), old(msg.View()))]
    {
      assert msg != slot[id].msg;
      hide Valid;
      Extend(id, msg.ID, msgData, now);
      DiscardMsg(msg, Some(id));
    }

    /** The pending message of `id` has become `m`, and is sent if that is too long to wait. */
    ghost predicate Absorbed(was: Slots, sent: seq<Sent>, id: Bytes, m: Msg, now: int)
      reads this`slot, this`out, slot.Values, Waiting()
    {
      && HasRaw(m, c.msgKey)
      && if |m.fields[c.msgKey].b| >= c.maxLen then View() == was - {id} && out == sent + [Sent(Some(id), m)]
         else View() == was[id := Pending(m, now)] && out == sent
    }

    method Extend(id: Bytes, tail: int, msgData: Bytes, now: int)
      requires Valid() && id in slot
      requires HasRaw(slot[id].msg.View(), c.msgKey)
      modifies this`slot, this`pMsgPool, this`msgPool, this`outChan, this`out, slot[id], slot[id].msg
      ensures Valid() && Msgs() <= old(Msgs()) && Waiting() <= old(Waiting()) && Pendings() <= old(Pendings())
      ensures Absorbed(old(View()), old(out), id, Absorb(old(View())[id].msg, c.msgKey, msgData, tail), now)
    {
      hide *;
      Grow(id, tail, msgData, now);
      SendLong(id, old(View()), now);
    }

    /** Sends the record of a container, which has just grown, if it is too long to wait. */
    method SendLong(id: Bytes, ghost was: Slots, now: int)
      requires Valid() && id in slot && HasRaw(slot[id].msg.View(), c.msgKey)
      requires View() == was[id := Pending(slot[id].msg.View(), now)]
      modifies this`slot, this`pMsgPool, this`msgPool, this`outChan, this`out
      ensures Valid() && Msgs() <= old(Msgs()) && Waiting() <= old(Waiting()) && Pendings() <= old(Pendings())
      ensures Absorbed(was, old(out), id, old(slot[id].msg.View()), now)
    {
      hide Valid;
      hide Waiting;
      hide Msgs;
      hide View;
      if |slot[id].msg.Message[c.msgKey].b| >= c.maxLen {
        TakenOut(was, id, Pending(slot[id].msg.View(), now));
        Release(id);
      }
    }

    /** Appends the bytes and the id in place. */
    method Grow(id: Bytes, tail: int, msgData: Bytes, now: int)
      requires Valid() && id in slot && HasRaw(slot[id].msg.View(), c.msgKey)
      modifies slot[id], slot[id].msg
      ensures Valid() && Waiting() == old(Waiting()) && Msgs() == old(Msgs()) && Pendings() == old(Pendings())
      ensures slot[id].msg.View() == Absorb(old(View())[id].msg, c.msgKey, msgData, tail)
      ensures HasRaw(slot[id].msg.View(), c.msgKey)
      ensures id in old(View()) && old(View())[id].msg == old(slot[id].msg.View())
      ensures View() == old(View())[id := Pending(Absorb(old(View())[id].msg, c.msgKey, msgData, tail), now)]
    {
      var pmsg := slot[id];
      hide Absorb;
      assert forall i :: i in slot && i != id ==> slot[i] != pmsg && slot[i].msg != pmsg.msg;
      pmsg.Append(c.msgKey, msgData, tail, now);
    }

    /** Sends what waits for one container and frees its pending object. */
    method Release(id: Bytes)
      requires Valid() && id in slot
      modifies this`slot, this`pMsgPool, this`msgPool, this`outChan, this`out
      ensures Valid() && Msgs() <= old(Msgs()) && Waiting() <= old(Waiting())
      ensures slot == old(slot) - {id} && pMsgPool == old(pMsgPool) + {old(slot[id])}
      ensures View() == old(View()) - {id}
      ensures out == old(out) + [Sent(Some(id), old(View())[id].msg)]
    {
      hide *;
      var msg := slot[id].msg;
      Unslot(id);
      SendOut(msg, Some(id));
    }

    method Unslot(id: Bytes)
      requires Valid() && id in slot
      modifies this`slot, this`pMsgPool
      ensures Valid() && Waiting() == old(Waiting()) - {old(slot[id].msg)}
      ensures Msgs() + {old(slot[id].msg)} == old(Msgs())
      ensures slot == old(slot) - {id} && pMsgPool == old(pMsgPool) + {old(slot[id])}
      ensures id in old(View()) && old(View())[id].msg == old(slot[id].msg.View()) && View() == old(View()) - {id}
    {
      pMsgPool := pMsgPool + {slot[id]};
      slot := slot - {id};
      assert forall i :: i in slot ==> i in old(slot) && slot[i] == old(slot)[i];
    }

    /** Nothing has come in: all messages and all pending objects are among these. */
    ghost predicate Within(ms: set<FluentMsg>, ps: set<PendingMsg>)
      reads this, slot.Values
    {
      Valid() && Msgs() <= ms && Pendings() <= ps
    }

    lemma Here()
      requires Valid()
      ensures Within(Msgs(), Pendings()) && !State().panicked
    {
    }

    /** One slot looked at while there is no message. */
    method VisitOne(id: Bytes, now: int, ghost ms: set<FluentMsg>, ghost ps: set<PendingMsg>) returns (panicked: bool)
      requires Within(ms, ps) && id in slot
      modifies this`slot, this`pMsgPool, this`msgPool, this`outChan, this`out
      ensures Within(ms, ps)
      ensures var w := Advance(c, old(State()), Visit(id, now));
        panicked == w.panicked && (!panicked ==> State() == w)
      ensures slot == old(slot) || slot == old(slot) - {id}
      ensures !panicked && id in slot ==> now - slot[id].lastT <= c.timeout
    {
      hide Valid;
      panicked := false;
      if now - slot[id].lastT > c.timeout {
        if c.msgKey !in slot[id].msg.Message || !slot[id].msg.Message[c.msgKey].Raw? {
          return true;
        }
        Release(id);
      }
    }

    /** All slots, each once, in an order that the runtime chooses. */
    method VisitAll(clock: Bytes -> int) returns (panicked: bool, ghost sts: seq<Step>)
      requires Valid()
      modifies this
      ensures Within(old(Msgs()), old(Pendings()))
      ensures AllVisits(sts, clock) && Visited(sts) <= multiset(old(slot).Keys)
      ensures panicked == AdvanceAll(c, old(State()), sts).panicked
      ensures !panicked ==>
                && State() == AdvanceAll(c, old(State()), sts) && Visited(sts) == multiset(old(slot).Keys)
                && forall id :: id in slot ==> clock(id) - slot[id].lastT <= c.timeout
    {
      ghost var ms, ps := Msgs(), Pendings();
      hide *;
      sts, panicked := [], false;
      var todo := slot.Keys;
      NoVisits(clock);
      NoSteps(c, State());
      Here();
      while todo != {}
        invariant Within(ms, ps) && !panicked && todo <= slot.Keys <= old(slot).Keys
        invariant State() == AdvanceAll(c, old(State()), sts) && !AdvanceAll(c, old(State()), sts).panicked
        invariant AllVisits(sts, clock) && Visited(sts) + multiset(todo) == multiset(old(slot).Keys)
        invariant forall id :: id in slot && id !in todo ==> clock(id) - slot[id].lastT <= c.timeout
        decreases todo
      {
        var id :| id in todo;
        AdvanceOne(c, old(State()), sts, Visit(id, clock(id)));
        VisitsOne(sts, clock, id, todo);
        sts := sts + [Visit(id, clock(id))];
        todo := todo - {id};
        panicked := VisitOne(id, clock(id), ms, ps);
        if panicked {
          return;
        }
      }
    }

    /** One pass of the select loop: the steps made are those that the event asks for. */
    method Handle(e: Event) returns (panicked: bool, ghost cut: seq<Step>)
      requires Valid()
      modifies this, slot.Values, Waiting(), pMsgPool, msgPool
      ensures Valid() && fresh(Msgs() - old(Msgs())) && fresh(Pendings() - old(Pendings()))
      ensures panicked == AdvanceAll(c, old(State()), cut).panicked
      ensures !panicked ==> State() == AdvanceAll(c, old(State()), cut) && Matches(e, old(slot).Keys, cut)
    {
      hide Advance;
      hide WorkerStep;
      match e {
        case Message(m, now) =>
          panicked, cut := HandleMsg(m, now);
        case NoMessage(clock) =>
          panicked, cut := VisitAll(clock);
      }
    }

    method HandleMsg(m: Msg, now: int) returns (panicked: bool, ghost cut: seq<Step>)
      requires Valid()
      modifies this, slot.Values, Waiting(), pMsgPool, msgPool
      ensures Valid() && fresh(Msgs() - old(Msgs())) && fresh(Pendings() - old(Pendings()))
      ensures cut == [Step.Receive(m, now)]
      ensures panicked == AdvanceAll(c, old(State()), cut).panicked
      ensures !panicked ==> State() == AdvanceAll(c, old(State()), cut)
    {
      hide WorkerStep;
      ghost var st := Step.Receive(m, now);
      var msg := Arrive(m);
      assert State() == old(State());
      hide Valid;
      panicked := Receive(msg, now);
      AdvanceOne(c, old(State()), [], st);
      assert [] + [st] == [st];
      cut := [st];
    }

    /** The loop, over the events of its select. The worker never panics; it handles each message once and in order,
        looks at each slot once whenever there is none, and ends in the state that these steps lead to. */
    method Run(events: seq<Event>) returns (panicked: bool, ghost cuts: seq<seq<Step>>)
      requires Valid() && State() == Start()
      modifies this, slot.Values, Waiting(), pMsgPool, msgPool
      ensures Valid() && !panicked
      ensures |cuts| == |events| && Realizes(c, Start(), events, cuts)
      ensures State() == AdvanceAll(c, Start(), Chain(cuts))
    {
      hide AdvanceAll;
      hide Valid;
      hide Matches;
      panicked, cuts := false, [];
      NoSteps(c, Start());
      for k := 0 to |events|
        invariant Valid() && !panicked && |cuts| == k
        invariant fresh(Msgs() - old(Msgs())) && fresh(Pendings() - old(Pendings()))
        invariant Realizes(c, Start(), events[..k], cuts)
        invariant State() == AdvanceAll(c, Start(), Chain(cuts))
      {
        hide View;
        hide Msgs;
        assert events[..k + 1][..k] == events[..k];
        KeysOfView();
        ghost var cut;
        panicked, cut := Handle(events[k]);
        AdvanceAppend(c, Start(), Chain(cuts), cut);
        assert (cuts + [cut])[..k] == cuts;
        cuts := cuts + [cut];
        NeverPanics(c, Chain(cuts));
      }
      assert events[..|events|] == events;
    }
  }

  /** What the select of the loop delivers: a message, or nothing, when the slots are looked at; `clock` is what the
      clock says at each. */
  datatype Event = Message(m: Msg, now: int) | NoMessage(clock: Bytes -> int)

  ghost predicate AllVisits(sts: seq<Step>, clock: Bytes -> int) {
    forall i :: 0 <= i < |sts| ==> sts[i].Visit? && sts[i].now == clock(sts[i].ident)
  }

  /** The containers visited by these steps, each as often as it is. */
  ghost function Visited(sts: seq<Step>): multiset<Bytes> {
    if sts == [] then multiset{}
    else Visited(sts[..|sts| - 1]) + if sts[|sts| - 1].Visit? then multiset{sts[|sts| - 1].ident} else multiset{}
  }

  lemma NoVisits(clock: Bytes -> int)
    ensures AllVisits([], clock) && Visited([]) == multiset{}
  {
  }

  lemma VisitsOne(sts: seq<Step>, clock: Bytes -> int, id: Bytes, todo: set<Bytes>)
    requires AllVisits(sts, clock) && id in todo
    ensures AllVisits(sts + [Visit(id, clock(id))], clock)
    ensures Visited(sts + [Visit(id, clock(id))]) + multiset(todo - {id}) == Visited(sts) + multiset(todo)
  {
    var st := Visit(id, clock(id));
    assert (sts + [st])[..|sts|] == sts;
    assert todo == (todo - {id}) + {id};
    assert multiset(todo) == multiset(todo - {id}) + multiset{id};
  }

  /** The steps that an event asks for, when these containers have a slot. */
  ghost predicate Matches(e: Event, ids: set<Bytes>, cut: seq<Step>) {
    match e
    case Message(m, now) => cut == [Receive(m, now)]
    case NoMessage(clock) => AllVisits(cut, clock) && Visited(cut) == multiset(ids)
  }

  function Chain(cuts: seq<seq<Step>>): seq<Step> {
    if cuts == [] then [] else Chain(cuts[..|cuts| - 1]) + cuts[|cuts| - 1]
  }

  /** A run of a worker from `w`, event by event. */
  ghost predicate Realizes(c: Config, w: WorkerState, events: seq<Event>, cuts: seq<seq<Step>>)
    requires |events| == |cuts|
  {
    events == [] ||
    var n := |events| - 1;
    && Realizes(c, w, events[..n], cuts[..n])
    && Matches(events[n], AdvanceAll(c, w, Chain(cuts[..n])).slots.Keys, cuts[n])
  }

  lemma TakenOut(m: Slots, id: Bytes, p: Pending)
    ensures m[id := p] - {id} == m - {id} && m[id := p][id] == p
  {
  }

  lemma StepIs(c: Config, slots: Slots, m: Msg, now: int)
    ensures WorkerStep(c, slots, Step.Receive(m, now)) ==
      match TagConcator.Inspect(c, m)
      case Pass(m') => Turn(slots, [Sent(None, m')], [])
      case Take(id, f) => Place(c, slots, id, f, now)
  {
  }

  lemma NoSteps(c: Config, w: WorkerState)
    ensures AdvanceAll(c, w, []) == w
  {
  }

  lemma NeverPanics(c: Config, sts: seq<Step>)
    ensures !AdvanceAll(c, Start(), sts).panicked
  {
    WorkerRefinesSplitter(c, sts);
  }

  lemma {:induction false} AdvanceAppend(c: Config, w: WorkerState, sts: seq<Step>, more: seq<Step>)
    ensures AdvanceAll(c, w, sts + more) == AdvanceAll(c, AdvanceAll(c, w, sts), more)
    decreases |more|
  {
    if more == [] {
      assert sts + more == sts;
    } else {
      AdvanceAppend(c, w, sts, more[..|more| - 1]);
      assert (sts + more)[..|sts + more| - 1] == sts + more[..|more| - 1];
    }
  }

  lemma AdvanceOne(c: Config, w: WorkerState, sts: seq<Step>, st: Step)
    ensures AdvanceAll(c, w, sts + [st]) == Advance(c, AdvanceAll(c, w, sts), st)
  {
    assert (sts + [st])[..|sts|] == sts;
  }
}
