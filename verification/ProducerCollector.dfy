/** The collector goroutine of the producer (runMsgCollector and discardMsg), over the objects it recycles. */
module ProducerCollector {
  import opened Options
  import opened Producer

  class PendingDiscardMsg {
    var count: nat
    var isAllSuccessed: bool
    var msg: Obj

    constructor ()
    {
      count, isAllSuccessed, msg := 0, false, 0;
    }
  }

  /** What the collector takes off its channels: a message, the count registered for its tag (if any), the outcome. */
  datatype Outcome = Outcome(msg: Obj, cntToDiscard: Option<nat>, isSuccessed: bool)

  /** The table of counts and the messages it has let go, after some outcomes; `None` is the panic. */
  datatype Ledger = Ledger(pending: map<Obj, PendingDiscard>, committed: seq<Obj>, recycled: seq<Obj>)

  function Enter(l: Ledger, e: Outcome): Option<Ledger> {
    match e.cntToDiscard
    case None => None
    case Some(n) =>
      match Count(l.pending, e.msg, e.isSuccessed, n)
      case Wait(pending) => Some(l.(pending := pending))
      case Done(pending, true) => Some(l.(pending := pending, committed := l.committed + [e.msg]))
      case Done(pending, false) => Some(l.(pending := pending, recycled := l.recycled + [e.msg]))
  }

  function EnterAll(l: Ledger, es: seq<Outcome>): Option<Ledger> {
    if es == [] then Some(l)
    else
      match EnterAll(l, es[..|es| - 1])
      case None => None
      case Some(l') => Enter(l', es[|es| - 1])
  }

  lemma EnterAllPrefix(l: Ledger, es: seq<Outcome>, i: nat)
    requires i <= |es| && EnterAll(l, es[..i]) == None
    ensures EnterAll(l, es) == None
    decreases |es| - i
  {
    if i < |es| {
      assert es[..i + 1][..i] == es[..i];
      EnterAllPrefix(l, es, i + 1);
    } else {
      assert es[..i] == es;
    }
  }

  lemma PutBack(pending: map<Obj, PendingDiscard>, o: Obj, p: PendingDiscard)
    ensures (pending - {o})[o := p] == pending[o := p]
  {
  }

  class Collector {
    var discardMsgCountMap: map<Obj, PendingDiscardMsg>
    var pMsgPool: set<PendingDiscardMsg>
    var commitChan: seq<Obj>
    var msgPool: seq<Obj>

    constructor ()
      ensures Valid() && Books() == Ledger(map[], [], []) && discardMsgCountMap == map[] && pMsgPool == {}
    {
      discardMsgCountMap, pMsgPool, commitChan, msgPool := map[], {}, [], [];
    }

    /** Each message has a record of its own, and none that is in the pool. */
    ghost predicate Valid()
      reads this, discardMsgCountMap.Values
    {
      && (forall o :: o in discardMsgCountMap ==>
            discardMsgCountMap[o] !in pMsgPool && discardMsgCountMap[o].msg == o)
    }

    ghost function Pending(): map<Obj, PendingDiscard>
      reads this, discardMsgCountMap.Values
    {
      map o | o in discardMsgCountMap ::
        PendingDiscard(discardMsgCountMap[o].count, discardMsgCountMap[o].isAllSuccessed)
    }

    ghost function Books(): Ledger
      reads this, discardMsgCountMap.Values
    {
      Ledger(Pending(), commitChan, msgPool)
    }

    ghost function Records(): set<PendingDiscardMsg>
      reads this
    {
      discardMsgCountMap.Values + pMsgPool
    }

    /** A record from the pool, whatever it held before, or a new one. */
    method GetPending() returns (pmsg: PendingDiscardMsg)
      requires Valid()
      modifies this`pMsgPool
      ensures pmsg in old(pMsgPool) || fresh(pmsg)
      ensures pMsgPool == old(pMsgPool) - {pmsg}
    {
      if {
        case true =>
          pmsg := new PendingDiscardMsg();
        case pMsgPool != {} =>
          pmsg :| pmsg in pMsgPool;
          pMsgPool := pMsgPool - {pmsg};
      }
    }

    method DiscardMsg(pmsg: PendingDiscardMsg)
      modifies this`commitChan, this`msgPool, this`pMsgPool
      ensures pMsgPool == old(pMsgPool) + {pmsg}
      ensures commitChan == if pmsg.isAllSuccessed then old(commitChan) + [pmsg.msg] else old(commitChan)
      ensures msgPool == if pmsg.isAllSuccessed then old(msgPool) else old(msgPool) + [pmsg.msg]
    {
      if pmsg.isAllSuccessed {
        commitChan := commitChan + [pmsg.msg];
      } else {
        msgPool := msgPool + [pmsg.msg];
      }
      pMsgPool := pMsgPool + {pmsg};
    }

    /** The record of a message, in the table or about to be. */
    ghost predicate Ready(pmsg: PendingDiscardMsg)
      reads this, pmsg
    {
      && pmsg !in pMsgPool
      && if pmsg.msg in discardMsgCountMap then pmsg == discardMsgCountMap[pmsg.msg]
         else pmsg !in discardMsgCountMap.Values
    }

    /** The record of a message with one more outcome entered in it; it is not in the table if it is new. */
    method Mark(msg: Obj, isSuccessed: bool) returns (pmsg: PendingDiscardMsg)
      requires Valid()
      modifies this`pMsgPool, Records()
      ensures Valid() && Ready(pmsg) && (pmsg in old(Records()) || fresh(pmsg)) && pMsgPool <= old(pMsgPool)
      ensures pmsg.msg == msg
      ensures if msg in discardMsgCountMap
              then pmsg.count == old(discardMsgCountMap[msg].count) + 1
                   && pmsg.isAllSuccessed == (old(discardMsgCountMap[msg].isAllSuccessed) && isSuccessed)
              else pmsg.count == 1 && pmsg.isAllSuccessed == isSuccessed
      ensures Pending() - {msg} == old(Pending()) - {msg}
    {
      if msg !in discardMsgCountMap {
        pmsg := GetPending();
        pmsg.isAllSuccessed := isSuccessed;
        pmsg.count := 1;
        pmsg.msg := msg;
      } else {
        pmsg := discardMsgCountMap[msg];
        pmsg.isAllSuccessed := pmsg.isAllSuccessed && isSuccessed;
        pmsg.count := pmsg.count + 1;
      }
    }

    /** The message goes if its count is complete, and waits if not. */
    method Settle(pmsg: PendingDiscardMsg, cntToDiscard: nat)
      requires Valid() && Ready(pmsg)
      modifies this
      ensures Valid() && Records() <= old(Records()) + {pmsg}
      ensures pmsg.count == cntToDiscard ==>
                && Pending() == old(Pending()) - {pmsg.msg}
                && commitChan == (if pmsg.isAllSuccessed then old(commitChan) + [pmsg.msg] else old(commitChan))
                && msgPool == (if pmsg.isAllSuccessed then old(msgPool) else old(msgPool) + [pmsg.msg])
      ensures pmsg.count != cntToDiscard ==>
                && Pending()
                   == (old(Pending()) - {pmsg.msg})[pmsg.msg := PendingDiscard(pmsg.count, pmsg.isAllSuccessed)]
                && commitChan == old(commitChan) && msgPool == old(msgPool)
    {
      if pmsg.count == cntToDiscard {
        discardMsgCountMap := discardMsgCountMap - {pmsg.msg};
        DiscardMsg(pmsg);
      } else {
        discardMsgCountMap := discardMsgCountMap[pmsg.msg := pmsg];
        assert pmsg.msg in Pending();
        assert Pending() == old(Pending())[pmsg.msg := PendingDiscard(pmsg.count, pmsg.isAllSuccessed)];
        PutBack(old(Pending()), pmsg.msg, PendingDiscard(pmsg.count, pmsg.isAllSuccessed));
      }
    }

    /** One turn of the loop. */
    method Collect(e: Outcome) returns (panicked: bool)
      requires Valid()
      modifies this, Records()
      ensures Valid() && fresh(Records() - old(Records()))
      ensures panicked <==> Enter(old(Books()), e) == None
      ensures !panicked ==> Enter(old(Books()), e) == Some(Books())
    {
      hide Valid;
      if e.cntToDiscard == None {
        return true;
      }
      panicked := false;
      var pmsg := Mark(e.msg, e.isSuccessed);
      Settle(pmsg, e.cntToDiscard.value);
      PutBack(old(Pending()), e.msg, PendingDiscard(pmsg.count, pmsg.isAllSuccessed));
    }

    /** The loop, over the outcomes in the order its select takes them from the two channels. */
    method Run(es: seq<Outcome>) returns (panicked: bool)
      requires Valid()
      modifies this, Records()
      ensures Valid()
      ensures panicked <==> EnterAll(old(Books()), es) == None
      ensures !panicked ==> EnterAll(old(Books()), es) == Some(Books())
    {
      panicked := false;
      assert es[..0] == [];
      for i := 0 to |es|
        invariant Valid() && fresh(Records() - old(Records()))
        invariant EnterAll(old(Books()), es[..i]) == Some(Books())
      {
        assert es[..i + 1][..i] == es[..i];
        panicked := Collect(es[i]);
        if panicked {
          EnterAllPrefix(old(Books()), es, i + 1);
          return;
        }
      }
      assert es[..|es|] == es;
    }
  }
}
