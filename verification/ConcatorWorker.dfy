/** runConcator: one worker goroutine over its slot map of pending message objects. */
module ConcatorWorker {
  import opened Options
  import opened Concator

  class FluentMsg {
    var Tag: Bytes
    var Message: map<Bytes, Field>
    var ID: int

    constructor (tag: Bytes, message: map<Bytes, Field>)
      ensures View() == Record(tag, message)
    {
      Tag, Message, ID := tag, message, 0;
    }

    function View(): Record
      reads this`Tag, this`Message
    {
      Record(Tag, Message)
    }

    method Fill(rec: Record)
      modifies this`Tag, this`Message
      ensures View() == rec
    {
      Tag, Message := rec.tag, rec.fields;
    }

    /** Appends to a raw field. */
    method AppendTo(key: Bytes, log: Bytes)
      requires key in Message && Message[key].Raw?
      modifies this`Message
      ensures View() == Append(old(View()), key, log) && key in Message && Message[key].Raw?
    {
      Message := Message[key := Raw(Message[key].b + log)];
    }
  }

  class PendingMsg {
    var msg: FluentMsg
    var lastT: int

    constructor (m: FluentMsg, t: int)
      ensures msg == m && lastT == t
    {
      msg, lastT := m, t;
    }

    method Set(m: FluentMsg, t: int)
      modifies this
      ensures msg == m && lastT == t
    {
      msg := m;
      lastT := t;
    }

    method Touch(t: int)
      modifies this`lastT
      ensures lastT == t
    {
      lastT := t;
    }
  }

  class Worker {
    const c: Config
    var slots: map<Bytes, PendingMsg>
    // pendingMsgPool: objects that are free for reuse, with stale contents.
    var pool: set<PendingMsg>
    // Message objects that may come back from the pool they share with the rest of the program: those put there, and
    // those sent, once whoever got them has put them there.
    var msgPool: set<FluentMsg>
    var counter: nat
    // asyncOutChan, and the same records before SendMsg stored the tag, by container.
    var wire: seq<Record>
    ghost var out: seq<Sent>

    /** The message objects that wait in the slots. */
    ghost function Waiting(): set<FluentMsg>
      reads this`slots, slots.Values
    {
      set i | i in slots :: slots[i].msg
    }

    ghost function Msgs(): set<FluentMsg>
      reads this`slots, slots.Values, this`msgPool
    {
      Waiting() + msgPool
    }

    ghost function Pendings(): set<PendingMsg>
      reads this`slots, this`pool
    {
      slots.Values + pool
    }

    /** Slots share neither pending objects nor messages, and a pooled object is in no slot. */
    ghost predicate Separate()
      reads this`slots, this`pool, slots.Values
    {
      && (forall i, j :: i in slots && j in slots && i != j ==> slots[i] != slots[j] && slots[i].msg != slots[j].msg)
      && (forall i :: i in slots ==> slots[i] !in pool)
    }

    /** Nor is a message object that may come back in any slot. */
    ghost predicate Valid()
      reads this, slots.Values
    {
      Separate() && Wired() && Waiting() !! msgPool
    }

    ghost predicate Wired()
      reads this`wire, this`out
    {
      |wire| == |out| && forall i :: 0 <= i < |out| ==> wire[i] == Seal(c, out[i].rec)
    }

    ghost function View(): Slots
      reads this`slots, slots.Values, Waiting()
    {
      map i | i in slots :: Pending(slots[i].msg.View(), slots[i].lastT)
    }

    ghost function State(): WorkerState
      reads this`slots, this`out, slots.Values, Waiting()
    {
      WorkerState(View(), out, false)
    }

    constructor (cfg: Config)
      ensures Valid() && View() == map[] && out == [] && c == cfg && Msgs() == {} && Pendings() == {} && counter == 0
    {
      c, slots, pool, msgPool, counter, wire, out := cfg, map[], {}, {}, 0, [], [];
    }

    /** The message gets the next number as its ID. */
    method SendMsg(msg: FluentMsg, ghost who: Option<Bytes>)
      requires Wired()
      modifies this`wire, this`out, this`counter, this`msgPool, msg`Message, msg`ID
      ensures Wired()
      ensures out == old(out) + [Sent(who, old(msg.View()))]
      ensures counter == old(counter) + 1 && msg.ID == counter
      ensures msgPool == old(msgPool) + {msg}
    {
      ghost var r := msg.View();
      msg.Message := msg.Message[c.tagKey := Text(msg.Tag)];
      counter := counter + 1;
      msg.ID := counter;
      wire := wire + [msg.View()];
      out := out + [Sent(who, r)];
      msgPool := msgPool + {msg};
    }

    /** Sends a message that waits in no slot. */
    method Forward(msg: FluentMsg, ghost who: Option<Bytes>)
      requires Valid() && msg !in Waiting()
      modifies this`wire, this`out, this`counter, this`msgPool, msg`Message, msg`ID
      ensures Valid() && View() == old(View()) && msgPool == old(msgPool) + {msg}
      ensures out == old(out) + [Sent(who, old(msg.View()))]
    {
      hide Wired;
      SendMsg(msg, who);
    }

    /** The receiver reads a record into an object from the pool, whatever that held before, or into a new one. */
    method Arrive(rec: Record) returns (msg: FluentMsg)
      requires Valid()
      modifies this`msgPool, msgPool
      ensures msg.View() == rec && (fresh(msg) || msg in old(msgPool))
      ensures Valid() && msg !in Msgs() && View() == old(View()) && Msgs() <= old(Msgs())
    {
      if {
        case true =>
          msg := new FluentMsg(rec.tag, rec.fields);
        case msgPool != {} =>
          msg :| msg in msgPool;
          msgPool := msgPool - {msg};
          msg.Fill(rec);
      }
    }

    /** A pending object from the pool, or a new one. */
    method GetPending(msg: FluentMsg, now: int) returns (pmsg: PendingMsg)
      requires Separate()
      modifies this`pool, pool
      ensures pmsg.msg == msg && pmsg.lastT == now
      ensures fresh(pmsg) || pmsg in old(pool)
      ensures pool == old(pool) - {pmsg}
      ensures Separate() && View() == old(View()) && Waiting() == old(Waiting()) && pmsg !in slots.Values
    {
      if pool == {} {
        pmsg := new PendingMsg(msg, now);
      } else {
        pmsg :| pmsg in pool;
        pool := pool - {pmsg};
        pmsg.Set(msg, now);
      }
    }

    /** One message from the channel. The two clock readings are those of the timeout test and of lastT. */
    method Receive(msg: FluentMsg, t1: int, t2: int) returns (panicked: bool)
      requires Valid() && msg !in Msgs()
      modifies this, msg, slots.Values, Waiting(), pool
      ensures Valid() && Msgs() <= old(Msgs()) + {msg}
      ensures fresh(Pendings() - old(Pendings()))
      ensures Made(old(State()), WorkerStep(c, old(View()), Step.Receive(old(msg.View()), t1, t2)), panicked)
    {
      hide Classify;
      hide Seal;
      hide Place;
      var frag, id, key, log := Inspect(msg);
      assert View() == old(View());
      if !frag {
        panicked := false;
        Forward(msg, None);
      } else {
        panicked := PlaceMsg(id, msg, key, log, c.tags[msg.Tag].head(log), t1, t2);
      }
    }

    /** The checks at the top of the loop; a text log is converted to raw bytes in place. */
    method Inspect(msg: FluentMsg) returns (frag: bool, identifier: Bytes, key: Bytes, log: Bytes)
      modifies msg`Message
      ensures msg.Tag == old(msg.Tag)
      ensures frag ==> msg.Tag in c.tags
      ensures Classify(c, old(msg.View())) == if !frag then Pass(msg.View())
        else Frag(identifier, Fragment(msg.View(), key, log, c.tags[msg.Tag].head(log)))
    {
      frag, identifier, key, log := false, [], [], [];
      if msg.Tag !in c.tags {
        return;
      }
      var cfg := c.tags[msg.Tag];
      if cfg.msgKey !in msg.Message || msg.Message[cfg.msgKey].Other? {
        return;
      }
      key, log := cfg.msgKey, msg.Message[cfg.msgKey].b;
      msg.Message := msg.Message[cfg.msgKey := Raw(log)];
      if cfg.identifierKey !in msg.Message || msg.Message[cfg.identifierKey].Other? {
        return;
      }
      frag, identifier := true, msg.Message[cfg.identifierKey].b;
    }

    /** The slot part of the loop body. */
    method PlaceMsg(id: Bytes, msg: FluentMsg, key: Bytes, log: Bytes, head: bool, t1: int, t2: int)
      returns (panicked: bool)
      requires Valid() && msg !in Msgs()
      modifies this, msg, slots.Values, Waiting(), pool
      ensures Valid() && Msgs() <= old(Msgs()) + {msg}
      ensures fresh(Pendings() - old(Pendings()))
      ensures Made(old(State()), Place(c, old(View()), id, Fragment(old(msg.View()), key, log, head), t1, t2), panicked)
    {
      panicked := false;
      if id !in slots {
        if head {
          Start(id, msg, t2);
        } else {
          Forward(msg, Some(id));
        }
      } else {
        panicked := PlaceKnown(id, msg, key, log, head, t1, t2);
      }
    }

    /** What a turn of the model has done to the objects. */
    ghost predicate Made(was: WorkerState, turn: Turn, panicked: bool)
      reads this`slots, this`out, slots.Values, Waiting()
    {
      panicked == turn.Panic? && (!panicked ==> View() == turn.slots && out == was.out + turn.sent)
    }

    /** The same for a container that has a slot. */
    method PlaceKnown(id: Bytes, msg: FluentMsg, key: Bytes, log: Bytes, head: bool, t1: int, t2: int)
      returns (panicked: bool)
      requires Valid() && msg !in Msgs() && id in slots
      modifies this, slots[id], slots[id].msg
      ensures Valid() && Msgs() <= old(Msgs()) + {msg}
      ensures Pendings() <= old(Pendings())
      ensures Made(old(State()), Place(c, old(View()), id, Fragment(old(msg.View()), key, log, head), t1, t2), panicked)
    {
      hide Append;
      hide Valid;
      panicked := false;
      if head || t1 - slots[id].lastT > c.wait {
        Replace(id, msg, t2);
      } else if key !in slots[id].msg.Message || !slots[id].msg.Message[key].Raw? {
        panicked := true;
      } else {
        // Only the bytes of the message live on.
        Recycle(msg);
        Extend(id, key, log, t2);
      }
    }

    method Recycle(msg: FluentMsg)
      requires Valid() && msg !in Waiting()
      modifies this`msgPool
      ensures Valid() && msgPool == old(msgPool) + {msg}
    {
      msgPool := msgPool + {msg};
    }

    /** A head for a new container. */
    method Start(id: Bytes, msg: FluentMsg, now: int)
      requires Valid() && msg !in Msgs() && id !in slots
      modifies this`pool, this`slots, pool
      ensures Valid() && Msgs() <= old(Msgs()) + {msg}
      ensures fresh(Pendings() - old(Pendings()))
      ensures View() == old(View())[id := Pending(msg.View(), now)]
    {
      var pmsg := GetPending(msg, now);
      SetSlot(id, pmsg);
    }

    method SetSlot(id: Bytes, pmsg: PendingMsg)
      requires Separate() && id !in slots && pmsg !in pool && pmsg !in slots.Values && pmsg.msg !in Waiting()
      modifies this`slots
      ensures Separate() && Waiting() <= old(Waiting()) + {pmsg.msg} && slots.Values <= old(slots.Values) + {pmsg}
      ensures View() == old(View())[id := Pending(pmsg.msg.View(), pmsg.lastT)]
    {
      slots := slots[id := pmsg];
      assert forall i :: i in old(slots) ==> slots[i] == old(slots)[i];
    }

    /** A new record for a known container: the pending object is reused for it in place. */
    method Replace(id: Bytes, msg: FluentMsg, now: int)
      requires Valid() && msg !in Msgs() && id in slots
      modifies this`wire, this`out, this`counter, this`msgPool, slots[id], slots[id].msg
      ensures Valid() && Msgs() <= old(Msgs()) + {msg}
      ensures slots == old(slots) && pool == old(pool)
      ensures View() == old(View())[id := Pending(msg.View(), now)]
      ensures out == old(out) + [Sent(Some(id), old(View())[id].rec)]
    {
      var oldMsg := slots[id].msg;
      Swap(id, msg, now);
      hide View;
      Forward(oldMsg, Some(id));
    }

    /** Puts a message into a slot in the place of another. */
    method Swap(id: Bytes, msg: FluentMsg, now: int)
      requires Valid() && msg !in Msgs() && id in slots
      modifies slots[id]
      ensures Valid() && Waiting() == old(Waiting()) - {old(slots[id].msg)} + {msg}
      ensures View() == old(View())[id := Pending(msg.View(), now)]
    {
      slots[id].Set(msg, now);
      assert slots[id].msg == msg && forall i :: i in slots && i != id ==> slots[i].msg == old(slots[i].msg);
    }

    /** Appends a continuation to the pending message and sends that when it got too long. */
    method Extend(id: Bytes, key: Bytes, log: Bytes, now: int)
      requires Valid() && id in slots && key in slots[id].msg.Message && slots[id].msg.Message[key].Raw?
      modifies this, slots[id], slots[id].msg
      ensures Valid() && Msgs() <= old(Msgs()) && Pendings() <= old(Pendings())
      ensures var r := Append(old(View())[id].rec, key, log);
        if |r.fields[key].b| >= c.maxLen
        then View() == old(View()) - {id} && out == old(out) + [Sent(Some(id), r)]
        else View() == old(View())[id := Pending(r, now)] && out == old(out)
    {
      hide Append;
      hide Valid;
      hide Waiting;
      Grow(id, key, log, now);
      SendLong(id, key);
    }

    /** Sends the record of a container if it is too long to wait. */
    method SendLong(id: Bytes, key: Bytes)
      requires Valid() && id in slots && key in slots[id].msg.Message && slots[id].msg.Message[key].Raw?
      modifies this, slots[id].msg
      ensures Valid() && Msgs() <= old(Msgs()) && Pendings() <= old(Pendings())
      ensures if |old(slots[id].msg.Message)[key].b| >= c.maxLen
              then View() == old(View()) - {id} && out == old(out) + [Sent(Some(id), old(View())[id].rec)]
              else View() == old(View()) && out == old(out)
    {
      hide Valid;
      hide Waiting;
      hide View;
      if |slots[id].msg.Message[key].b| >= c.maxLen {
        Release(id);
      }
    }

    /** Appends the bytes in place. */
    method Grow(id: Bytes, key: Bytes, log: Bytes, now: int)
      requires Valid() && id in slots && key in slots[id].msg.Message && slots[id].msg.Message[key].Raw?
      modifies slots[id], slots[id].msg
      ensures Valid() && Waiting() == old(Waiting()) && slots[id].msg == old(slots[id].msg)
      ensures id in old(View()) && slots[id].msg.View() == Append(old(View())[id].rec, key, log)
      ensures key in slots[id].msg.Message && slots[id].msg.Message[key].Raw?
      ensures View() == old(View())[id := Pending(Append(old(View())[id].rec, key, log), now)]
    {
      hide Append;
      hide Wired;
      assert forall i :: i in slots && i != id ==> slots[i] != slots[id] && slots[i].msg != slots[id].msg;
      slots[id].msg.AppendTo(key, log);
      slots[id].Touch(now);
      hide Separate;
      Regrown(old(View()), id, now);
    }

    /** All but one slot show what they did. */
    lemma Regrown(was: Slots, id: Bytes, now: int)
      requires id in slots && slots[id].lastT == now && was.Keys == slots.Keys
      requires forall i :: i in slots && i != id ==> was[i] == Pending(slots[i].msg.View(), slots[i].lastT)
      ensures View() == was[id := Pending(slots[id].msg.View(), now)]
    {
    }

    /** Sends what waits for one container and frees its pending object. */
    method Release(id: Bytes)
      requires Valid() && id in slots
      modifies this, slots[id].msg
      ensures Valid() && Msgs() <= old(Msgs()) && Waiting() <= old(Waiting())
      ensures slots == old(slots) - {id} && pool == old(pool) + {old(slots[id])}
      ensures View() == old(View()) - {id}
      ensures out == old(out) + [Sent(Some(id), old(View())[id].rec)]
    {
      var msg := slots[id].msg;
      Unslot(id);
      hide View;
      Forward(msg, Some(id));
    }

    method Unslot(id: Bytes)
      requires Valid() && id in slots
      modifies this`slots, this`pool
      ensures Valid() && Waiting() == old(Waiting()) - {old(slots[id].msg)}
      ensures slots == old(slots) - {id} && pool == old(pool) + {old(slots[id])}
      ensures View() == old(View()) - {id}
    {
      pool := pool + {slots[id]};
      slots := slots - {id};
      assert forall i :: i in slots ==> i in old(slots) && slots[i] == old(slots)[i];
    }

    /** Nothing has come in: what waits, all messages and all pending objects are among these. */
    ghost predicate Within(ws: set<FluentMsg>, ms: set<FluentMsg>, ps: set<PendingMsg>)
      reads this, slots.Values
    {
      Valid() && Waiting() <= ws && Msgs() <= ms && Pendings() <= ps
    }

    /** The cleaner visits every slot once, in an order the runtime chooses, and reads the clock each time. */
    method CleanAll(now: Bytes -> int) returns (ghost sts: seq<Step>)
      requires Valid()
      modifies this, Waiting()
      ensures Within(old(Waiting()), old(Msgs()), old(Pendings()))
      ensures State() == AdvanceAll(c, old(State()), sts)
      ensures AllCleans(sts, now) && Visited(sts) == multiset(old(slots).Keys)
      ensures forall id :: id in slots ==> now(id) - slots[id].lastT <= c.wait
    {
      ghost var ws, ms, ps := Waiting(), Msgs(), Pendings();
      hide *;
      sts := [];
      var todo := slots.Keys;
      NoneVisited();
      NoSteps(c, State());
      NoCleans(now);
      Here();
      while todo != {}
        invariant Within(ws, ms, ps)
        invariant todo <= slots.Keys <= old(slots).Keys
        invariant State() == AdvanceAll(c, old(State()), sts)
        invariant AllCleans(sts, now) && Visited(sts) + multiset(todo) == multiset(old(slots).Keys)
        invariant forall id :: id in slots && id !in todo ==> now(id) - slots[id].lastT <= c.wait
        decreases todo
      {
        var id :| id in todo;
        AdvanceOne(c, old(State()), sts, Clean(id, now(id)));
        VisitedOne(sts, Clean(id, now(id)), todo);
        CleansOne(sts, now, id);
        sts := sts + [Clean(id, now(id))];
        todo := todo - {id};
        Visit(id, now(id), ws, ms, ps);
      }
    }

    lemma Here()
      requires Valid()
      ensures Within(Waiting(), Msgs(), Pendings())
    {
    }

    method Visit(id: Bytes, now: int, ghost ws: set<FluentMsg>, ghost ms: set<FluentMsg>, ghost ps: set<PendingMsg>)
      requires Within(ws, ms, ps) && id in slots
      modifies this, ws
      ensures Within(ws, ms, ps)
      ensures slots == (if now - old(slots[id]).lastT > c.wait then old(slots) - {id} else old(slots))
      ensures State() == Advance(c, old(State()), Clean(id, now))
    {
      hide Valid;
      if now - slots[id].lastT > c.wait {
        Release(id);
      }
    }

    /** On its way out the worker sends everything that still waits. */
    method FlushAll() returns (ghost sts: seq<Step>)
      requires Valid()
      modifies this, Waiting()
      ensures Within(old(Waiting()), old(Msgs()), old(Pendings()))
      ensures State() == AdvanceAll(c, old(State()), sts)
      ensures AllFlushes(sts) && Visited(sts) == multiset(old(slots).Keys)
      ensures slots == map[]
    {
      ghost var ws, ms, ps := Waiting(), Msgs(), Pendings();
      hide *;
      sts := [];
      NoneVisited();
      NoSteps(c, State());
      NoFlushes();
      Here();
      while slots != map[]
        invariant Within(ws, ms, ps)
        invariant State() == AdvanceAll(c, old(State()), sts)
        invariant AllFlushes(sts) && Visited(sts) + multiset(slots.Keys) == multiset(old(slots).Keys)
        decreases slots.Keys
      {
        var id :| id in slots;
        AdvanceOne(c, old(State()), sts, Flush(id));
        VisitedOne(sts, Flush(id), slots.Keys);
        FlushesOne(sts, id);
        sts := sts + [Flush(id)];
        FlushOne(id, ws, ms, ps);
      }
    }

    method FlushOne(id: Bytes, ghost ws: set<FluentMsg>, ghost ms: set<FluentMsg>, ghost ps: set<PendingMsg>)
      requires Within(ws, ms, ps) && id in slots
      modifies this, ws
      ensures Within(ws, ms, ps)
      ensures slots == old(slots) - {id} && slots.Keys == old(slots).Keys - {id}
      ensures State() == Advance(c, old(State()), Flush(id))
    {
      hide Valid;
      Release(id);
    }

    /** One pass of the select loop: the steps made are those that the event asks for. */
    method Handle(e: Event) returns (panicked: bool, ghost cut: seq<Step>)
      requires Valid()
      modifies this, slots.Values, Waiting(), pool, msgPool
      ensures Valid() && fresh(Msgs() - old(Msgs())) && fresh(Pendings() - old(Pendings()))
      ensures Matches(e, old(slots).Keys, cut)
      ensures AdvanceAll(c, old(State()), cut).panicked == panicked
      ensures !panicked ==> State() == AdvanceAll(c, old(State()), cut)
    {
      hide Advance;
      hide WorkerStep;
      match e {
        case Message(rec, t1, t2) =>
          panicked, cut := HandleMsg(rec, t1, t2);
        case CleanTick(now) =>
          panicked := false;
          cut := CleanAll(now);
      }
    }

    method HandleMsg(rec: Record, t1: int, t2: int) returns (panicked: bool, ghost cut: seq<Step>)
      requires Valid()
      modifies this, slots.Values, Waiting(), pool, msgPool
      ensures Valid() && fresh(Msgs() - old(Msgs())) && fresh(Pendings() - old(Pendings()))
      ensures cut == [Step.Receive(rec, t1, t2)]
      ensures AdvanceAll(c, old(State()), cut).panicked == panicked
      ensures !panicked ==> State() == AdvanceAll(c, old(State()), cut)
    {
      hide Advance;
      hide WorkerStep;
      ghost var st := Step.Receive(rec, t1, t2);
      var msg := Arrive(rec);
      assert State() == old(State());
      hide Valid;
      panicked := Receive(msg, t1, t2);
      AdvanceOne(c, old(State()), [], st);
      assert [] + [st] == [st];
      ReceiveAdvances(c, old(State()), st);
      cut := [st];
    }

    /** The select loop until the channel is closed: what the worker does for each event, up to a panic if there is
        one. */
    method Loop(events: seq<Event>) returns (panicked: bool, ghost cuts: seq<seq<Step>>)
      requires Valid()
      modifies this, slots.Values, Waiting(), pool, msgPool
      ensures Valid() && fresh(Msgs() - old(Msgs())) && fresh(Pendings() - old(Pendings()))
      ensures |cuts| <= |events| && Realizes(c, old(State()), events[..|cuts|], cuts)
      ensures panicked == AdvanceAll(c, old(State()), Chain(cuts)).panicked
      ensures !panicked ==> |cuts| == |events| && State() == AdvanceAll(c, old(State()), Chain(cuts))
    {
      hide AdvanceAll;
      hide Valid;
      hide Matches;
      ghost var w0 := State();
      panicked, cuts := false, [];
      NoSteps(c, w0);
      for k := 0 to |events|
        invariant Valid() && !panicked && |cuts| == k
        invariant fresh(Msgs() - old(Msgs())) && fresh(Pendings() - old(Pendings()))
        invariant Realizes(c, w0, events[..k], cuts)
        invariant State() == AdvanceAll(c, w0, Chain(cuts))
      {
        hide View;
        hide Msgs;
        ghost var cut;
        assert events[..k + 1][..k] == events[..k];
        KeysOfView();
        panicked, cut := Handle(events[k]);
        AdvanceAppend(c, w0, Chain(cuts), cut);
        assert (cuts + [cut])[..k] == cuts;
        cuts := cuts + [cut];
        if panicked {
          return;
        }
      }
    }

    lemma KeysOfView()
      ensures View().Keys == slots.Keys
    {
    }

    /** The worker from its first select to its exit: each message is handled once, in order, and with the readings of
        the clock that belong to it; each tick visits each slot once; and when no assertion fails, each slot is flushed
        once at the end and nothing is left waiting. */
    method Run(events: seq<Event>) returns (panicked: bool, ghost cuts: seq<seq<Step>>, ghost last: seq<Step>)
      requires Valid()
      modifies this, slots.Values, Waiting(), pool, msgPool
      ensures Valid()
      ensures |cuts| <= |events| && Realizes(c, old(State()), events[..|cuts|], cuts)
      ensures panicked == AdvanceAll(c, old(State()), Chain(cuts)).panicked
      ensures !panicked ==>
                && |cuts| == |events| && AllFlushes(last)
                && Visited(last) == multiset(AdvanceAll(c, old(State()), Chain(cuts)).slots.Keys)
                && slots == map[] && State() == AdvanceAll(c, old(State()), Chain(cuts) + last)
    {
      hide AdvanceAll;
      hide Realizes;
      hide Valid;
      hide View;
      panicked, cuts := Loop(events);
      last := [];
      if !panicked {
        KeysOfView();
        last := FlushAll();
        AdvanceAppend(c, old(State()), Chain(cuts), last);
      }
    }
  }

  /** What the select of a worker can deliver: a message and the two clock readings made for it, or a tick of the
      cleaner; `now` reads the clock for each slot the cleaner visits. */
  datatype Event = Message(rec: Record, t1: int, t2: int) | CleanTick(now: Bytes -> int)

  ghost predicate AllCleans(sts: seq<Step>, now: Bytes -> int) {
    forall i :: 0 <= i < |sts| ==> sts[i].Clean? && sts[i].t == now(sts[i].ident)
  }

  ghost predicate AllFlushes(sts: seq<Step>) {
    forall i :: 0 <= i < |sts| ==> sts[i].Flush?
  }

  /** The containers visited by these steps, each as often as it is. */
  ghost function Visited(sts: seq<Step>): multiset<Bytes> {
    if sts == [] then multiset{}
    else Visited(sts[..|sts| - 1]) + if sts[|sts| - 1].Receive? then multiset{} else multiset{sts[|sts| - 1].ident}
  }

  /** The steps that an event asks for, when these containers have a slot. */
  ghost predicate Matches(e: Event, ids: set<Bytes>, cut: seq<Step>) {
    match e
    case Message(rec, t1, t2) => cut == [Receive(rec, t1, t2)]
    case CleanTick(now) => AllCleans(cut, now) && Visited(cut) == multiset(ids)
  }

  function Chain(cuts: seq<seq<Step>>): seq<Step> {
    if cuts == [] then [] else Chain(cuts[..|cuts| - 1]) + cuts[|cuts| - 1]
  }

  /** A run of a worker from `w`, event by event. */
  ghost predicate Realizes(c: Config, w: WorkerState, events: seq<Event>, cuts: seq<seq<Step>>)
    requires |events| == |cuts|
  {
    events == [] ||
    var n := |events| - 1;
    && Realizes(c, w, events[..n], cuts[..n])
    && Matches(events[n], AdvanceAll(c, w, Chain(cuts[..n])).slots.Keys, cuts[n])
  }

  lemma NoCleans(now: Bytes -> int)
    ensures AllCleans([], now)
  {
  }

  lemma CleansOne(sts: seq<Step>, now: Bytes -> int, id: Bytes)
    requires AllCleans(sts, now)
    ensures AllCleans(sts + [Clean(id, now(id))], now)
  {
  }

  lemma NoFlushes()
    ensures AllFlushes([])
  {
  }

  lemma FlushesOne(sts: seq<Step>, id: Bytes)
    requires AllFlushes(sts)
    ensures AllFlushes(sts + [Flush(id)])
  {
  }

  lemma NoneVisited()
    ensures Visited([]) == multiset{}
  {
  }

  lemma VisitedOne(sts: seq<Step>, st: Step, todo: set<Bytes>)
    requires !st.Receive? && st.ident in todo
    ensures Visited(sts + [st]) + multiset(todo - {st.ident}) == Visited(sts) + multiset(todo)
  {
    assert (sts + [st])[..|sts|] == sts;
    assert todo == (todo - {st.ident}) + {st.ident};
    assert multiset(todo) == multiset(todo - {st.ident}) + multiset{st.ident};
  }

  lemma NoSteps(c: Config, w: WorkerState)
    ensures AdvanceAll(c, w, []) == w
  {
  }

  lemma ReceiveAdvances(c: Config, w: WorkerState, st: Step)
    requires !w.panicked
    ensures Advance(c, w, st).panicked == WorkerStep(c, w.slots, st).Panic?
    ensures WorkerStep(c, w.slots, st).Turn? ==>
      Advance(c, w, st)
      == WorkerState(WorkerStep(c, w.slots, st).slots, w.out + WorkerStep(c, w.slots, st).sent, false)
  {
    hide WorkerStep;
  }
}
