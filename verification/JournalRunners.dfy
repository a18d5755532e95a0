/** The goroutines of internal/controller/journal.go as loops over the maps and channels of one Journal object, each
    proved to make the steps of the state machine. */
module JournalRunners {
  import opened Options
  import opened JournalMachine
  import opened JournalPass

  function MaxId(es: seq<Entry>): (id: int)
    ensures id >= 0 && (forall e :: e in es ==> e.id <= id)
    ensures id == 0 || exists i :: 0 <= i < |es| && es[i].id == id
  {
    if es == [] then 0
    else
      var m := MaxId(es[..|es| - 1]);
      assert es == es[..|es| - 1] + [es[|es| - 1]];
      if es[|es| - 1].id > m then es[|es| - 1].id else m
  }

  lemma MaxIdSnoc(es: seq<Entry>, e: Entry)
    ensures MaxId(es + [e]) == if e.id > MaxId(es) then e.id else MaxId(es)
  {
    assert (es + [e])[..|es|] == es;
  }

  /** The files of a tag with more ids written. */
  function Marked(m: map<Tag, Files>, tag: Tag, ids: set<int>): map<Tag, Files>
    requires tag in m
  {
    m[tag := m[tag].(ids := m[tag].ids + ids)]
  }

  lemma MarkedTwice(m: map<Tag, Files>, tag: Tag, a: set<int>, b: set<int>)
    requires tag in m
    ensures Marked(Marked(m, tag, a), tag, b) == Marked(m, tag, a + b)
  {
    assert m[tag].ids + a + b == m[tag].ids + (a + b);
  }

  lemma DumpIs(c: Config, s: State)
    requires s.dumpChan != []
    ensures var e := s.dumpChan[0]; var s' := Create(s.(dumpChan := s.dumpChan[1..]), e.tag);
      && ((e.tag in s.tag2JJInchanMap && s.tag2JJInchanMap.Keys == s.tag2JMap.Keys) ==>
            s' == s.(dumpChan := s.dumpChan[1..]))
      && (e.tag in s'.tag2JJInchanMap ==> Next(c, s, Dump) == Dumped(c, s', e))
  {
    hide Dumped;
  }

  lemma RunCommitIs(c: Config, s: State, full: bool)
    requires s.commits.commitChan != []
    ensures var m := s.commits.commitChan[0]; var s' := Create(s, m.tag);
      m.tag in s'.commits.tag2JJCommitChanMap ==>
        Next(c, s, RunCommit(full)) == s'.(commits := Committing(c, Popped(s'.commits), m, full))
  {
  }

  /** The messages in the channel of a tag; a tag without one has none. */
  function ChanOf<T>(m: map<Tag, seq<T>>, tag: Tag): seq<T> {
    if tag in m then m[tag] else []
  }

  class Journal {
    const cfg: Config
    var dumpChan: seq<Entry>
    var outChan: seq<Entry>
    var commitChan: seq<Commit>
    var tag2JMap: map<Tag, Files>
    var tag2JJInchanMap: map<Tag, seq<Entry>>
    var tag2JJCommitChanMap: map<Tag, seq<Commit>>
    // Messages given back to the pool.
    var msgPool: seq<Entry>
    ghost var attempts: seq<Attempt>

    constructor (cfg: Config)
      ensures this.cfg == cfg && dumpChan == [] && outChan == [] && commitChan == []
      ensures tag2JMap == map[] && tag2JJInchanMap == map[]
      ensures tag2JJCommitChanMap == map[] && msgPool == [] && attempts == []
    {
      this.cfg := cfg;
      dumpChan, outChan, commitChan, msgPool, attempts := [], [], [], [], [];
      tag2JMap, tag2JJInchanMap, tag2JJCommitChanMap := map[], map[], map[];
    }

    ghost predicate Valid()
      reads this
    {
      tag2JJInchanMap.Keys == tag2JMap.Keys && tag2JJCommitChanMap.Keys == tag2JMap.Keys
    }

    /** The Journal object within a state of the state machine. */
    ghost predicate Shows(s: State)
      reads this
    {
      && dumpChan == s.dumpChan && outChan == s.outChan
      && tag2JMap == s.tag2JMap && tag2JJInchanMap == s.tag2JJInchanMap
      && commitChan == s.commits.commitChan && tag2JJCommitChanMap == s.commits.tag2JJCommitChanMap
      && attempts == s.commits.attempts
    }

    method CreateJournalRunner(tag: Tag, ghost s: State)
      requires Valid() && Shows(s)
      modifies this`tag2JMap, this`tag2JJCommitChanMap, this`tag2JJInchanMap
      ensures Valid() && tag in tag2JMap
      ensures old(tag in tag2JMap) ==> tag2JMap == old(tag2JMap)
      ensures forall t :: ChanOf(tag2JJInchanMap, t) == ChanOf(old(tag2JJInchanMap), t)
                       && ChanOf(tag2JJCommitChanMap, t) == ChanOf(old(tag2JJCommitChanMap), t)
      ensures Shows(Create(s, tag))
    {
      if tag in tag2JMap {
        return;
      }
      tag2JMap := tag2JMap[tag := Files([], [], false, {}, {})];
      tag2JJCommitChanMap := tag2JJCommitChanMap[tag := []];
      tag2JJInchanMap := tag2JJInchanMap[tag := []];
    }

    /** A turn of the dumper. */
    method DumpMsg(ghost s: State)
      requires Valid() && Shows(s) && dumpChan != []
      modifies this
      ensures Valid() && dumpChan == old(dumpChan)[1..]
      ensures Shows(Next(cfg, s, Dump))
      ensures var msg := old(dumpChan)[0];
              var busy := |ChanOf(old(tag2JJInchanMap), msg.tag)| >= cfg.childDataLen && |old(outChan)| >= cfg.outLen;
              msgPool == if busy then old(msgPool) + [msg] else old(msgPool)
    {
      var msg := dumpChan[0];
      DumpIs(cfg, s);
      hide Next;
      hide Create;
      hide Dumped;
      dumpChan := dumpChan[1..];
      if msg.tag !in tag2JJInchanMap {
        CreateJournalRunner(msg.tag, s.(dumpChan := dumpChan));
      }
      SendOn(msg, Create(s.(dumpChan := dumpChan), msg.tag));
    }

    /** To the journal of the tag, out, or back to the pool: the second try to send is made in the state of the first.
        */
    method SendOn(msg: Entry, ghost s: State)
      requires Valid() && Shows(s) && msg.tag in tag2JJInchanMap
      modifies this`tag2JJInchanMap, this`outChan, this`msgPool
      ensures Valid() && Shows(Dumped(cfg, s, msg))
      ensures msgPool == if |old(tag2JJInchanMap)[msg.tag]| >= cfg.childDataLen && |old(outChan)| >= cfg.outLen
                         then old(msgPool) + [msg] else old(msgPool)
    {
      var jji := tag2JJInchanMap[msg.tag];
      if |jji| < cfg.childDataLen {
        tag2JJInchanMap := tag2JJInchanMap[msg.tag := jji + [msg]];
      } else if |outChan| < cfg.outLen {
        outChan := outChan + [msg];
      } else {
        msgPool := msgPool + [msg];
      }
    }

    /** WriteData of the library. */
    method LogData(tag: Tag, e: Entry, ok: bool) returns (err: bool)
      requires tag in tag2JMap
      modifies this`tag2JMap
      ensures err == !ok
      ensures tag2JMap == if ok then old(tag2JMap)[tag := old(tag2JMap)[tag].(data := old(tag2JMap)[tag].data + [e])]
                          else old(tag2JMap)
    {
      if ok {
        tag2JMap := tag2JMap[tag := tag2JMap[tag].(data := tag2JMap[tag].data + [e])];
      }
      err := !ok;
    }

    /** A turn of the data writer of a tag, with the message it has taken. */
    method WriteMsg(tag: Tag, msg: Entry, oks: seq<bool>, ghost s: State) returns (tries: nat)
      requires Valid() && tag in tag2JMap && Shows(s) && tag in s.writers && s.writers[tag] == msg
      modifies this
      ensures Valid() && 1 <= tries <= 2
      ensures tries == 2 <==> !(|oks| > 0 && oks[0])
      ensures Shows(DataWritten(cfg, s, tag, oks))
      ensures msgPool == old(msgPool) + if |old(outChan)| < cfg.outLen then [] else [msg]
    {
      var nRetry, maxRetry := 0, 2;
      var err := true;
      tries := 0;
      while nRetry < maxRetry
        invariant 0 <= nRetry <= maxRetry && tries == nRetry && err
        invariant nRetry > 0 ==> !(|oks| > 0 && oks[0])
        invariant nRetry > 1 ==> !(|oks| > 1 && oks[1])
        invariant tag2JMap == old(tag2JMap) && outChan == old(outChan) && Valid() && msgPool == old(msgPool)
        invariant commitChan == old(commitChan) && tag2JJInchanMap == old(tag2JJInchanMap) && dumpChan == old(dumpChan)
        invariant tag2JJCommitChanMap == old(tag2JJCommitChanMap) && attempts == old(attempts)
      {
        tries := tries + 1;
        err := LogData(tag, msg, nRetry < |oks| && oks[nRetry]);
        if err {
          nRetry := nRetry + 1;
          continue;
        }
        break;
      }
      if |outChan| < cfg.outLen {
        outChan := outChan + [msg];
      } else {
        msgPool := msgPool + [msg];
      }
    }

    /** WriteId of the library. */
    method LogId(tag: Tag, id: int, ok: bool) returns (err: bool)
      requires tag in tag2JMap
      modifies this`tag2JMap, this`attempts
      ensures err == !ok
      ensures attempts == old(attempts) + [Attempt(tag, id, ok)]
      ensures tag2JMap == Marked(old(tag2JMap), tag, if ok then {id} else {})
    {
      tag2JMap := tag2JMap[tag := tag2JMap[tag].(ids := tag2JMap[tag].ids + if ok then {id} else {})];
      attempts := attempts + [Attempt(tag, id, ok)];
      err := !ok;
    }

    /** The retry loop of the ids writer. Its break is outside the test for an error, so it goes round once. */
    method TryId(tag: Tag, id: int, ok: bool)
      requires tag in tag2JMap
      modifies this`tag2JMap, this`attempts
      ensures attempts == old(attempts) + [Attempt(tag, id, ok)]
      ensures tag2JMap == Marked(old(tag2JMap), tag, if ok then {id} else {})
    {
      var nRetry, maxRetry := 0, 2;
      var broken := false;
      while !broken && nRetry < maxRetry
        invariant !broken ==> nRetry == 0 && tag2JMap == old(tag2JMap) && attempts == old(attempts)
        invariant broken ==> attempts == old(attempts) + [Attempt(tag, id, ok)]
        invariant broken ==> tag2JMap == Marked(old(tag2JMap), tag, if ok then {id} else {})
        decreases !broken
      {
        var err := LogId(tag, id, ok);
        if err {
          nRetry := nRetry + 1;
        }
        broken := true;
      }
    }

    /** The ids have been tried, with these results, since the files and the attempts were `files` and `before`. */
    ghost predicate HaveTried(tag: Tag, ids: seq<int>, oks: seq<bool>, files: map<Tag, Files>, before: seq<Attempt>)
      reads this`tag2JMap, this`attempts
    {
      && tag in files && attempts == before + AttemptsFor(tag, ids, oks)
      && tag2JMap == Marked(files, tag, WrittenIn(AttemptsFor(tag, ids, oks)))
    }

    method TryNext(tag: Tag, mid: int, ok: bool, ghost ids: seq<int>, ghost k: nat, ghost oks: seq<bool>,
                   ghost files: map<Tag, Files>, ghost before: seq<Attempt>)
      requires k < |ids| && mid == ids[k] && ok == (k < |oks| && oks[k]) && HaveTried(tag, ids[..k], oks, files, before)
      modifies this`tag2JMap, this`attempts
      ensures HaveTried(tag, ids[..k + 1], oks, files, before)
    {
      NextAttempt(tag, ids, oks, k);
      MarkedTwice(files, tag, WrittenIn(AttemptsFor(tag, ids[..k], oks)), if ok then {mid} else {});
      hide AttemptsFor;
      hide WrittenIn;
      hide Marked;
      TryId(tag, mid, ok);
    }

    /** The ID of a message, then its ExtIds. */
    method TryMsg(tag: Tag, msg: Commit, oks: seq<bool>)
      requires tag in tag2JMap
      modifies this`tag2JMap, this`attempts
      ensures HaveTried(tag, IdsOf(msg), oks, old(tag2JMap), old(attempts))
    {
      ghost var all, files, before := IdsOf(msg), tag2JMap, attempts;
      NothingTried(tag, all, oks);
      assert |all| == |msg.extIds| + 1 && forall i :: 0 <= i < |msg.extIds| ==> all[i + 1] == msg.extIds[i];
      hide *;
      TryNext(tag, msg.id, 0 < |oks| && oks[0], all, 0, oks, files, before);
      for i := 0 to |msg.extIds|
        invariant HaveTried(tag, all[..i + 1], oks, files, before)
      {
        TryNext(tag, msg.extIds[i], i + 1 < |oks| && oks[i + 1], all, i + 1, oks, files, before);
      }
      assert all[..|all|] == all;
    }

    lemma NothingTried(tag: Tag, ids: seq<int>, oks: seq<bool>)
      requires tag in tag2JMap
      ensures HaveTried(tag, ids[..0], oks, tag2JMap, attempts)
    {
      assert ids[..0] == [] && attempts + [] == attempts;
      assert WrittenIn([]) == {};
      assert Marked(tag2JMap, tag, {}) == tag2JMap by { assert tag2JMap[tag].ids + {} == tag2JMap[tag].ids; }
    }

    /** A turn of the ids writer of a tag. */
    method WriteIds(tag: Tag, oks: seq<bool>, ghost s: State)
      requires Valid() && Shows(s) && tag in tag2JMap && tag2JJCommitChanMap[tag] != []
      modifies this
      ensures Valid()
      ensures Shows(IdsWritten(s, tag, oks))
    {
      hide AttemptsFor;
      hide WrittenIn;
      var msg := tag2JJCommitChanMap[tag][0];
      tag2JJCommitChanMap := tag2JJCommitChanMap[tag := tag2JJCommitChanMap[tag][1..]];
      TryMsg(tag, msg, oks);
    }

    // ---- The legacy loader ----

    /** The object is where a run from `s` has led that only loads entries of `tag`, gives them to the dumper and lets
        the dumper take its turns; `given` is what it gave. */
    ghost predicate Follows(s: State, acts: seq<Action>, tag: Tag, given: seq<Entry>)
      reads this
    {
      && Valid() && Shows(RunFrom(cfg, s, acts)) && tag in tag2JMap && given == GivenIn(cfg, s, acts, tag)
      && (forall a :: a in acts ==> a == LoadNext(tag) || a == PushBack(tag) || a == Dump)
    }

    /** What the loader has in hand after a run. */
    ghost function Holding(s: State, acts: seq<Action>, tag: Tag): seq<Entry> {
      JournalPass.InHand(RunFrom(cfg, s, acts), tag)
    }

    lemma Stepped(s: State, acts: seq<Action>, a: Action, tag: Tag, given: seq<Entry>)
      requires Valid() && tag in tag2JMap && Shows(Next(cfg, RunFrom(cfg, s, acts), a))
      requires given == GivenIn(cfg, s, acts, tag)
      requires forall b :: b in acts + [a] ==> b == LoadNext(tag) || b == PushBack(tag) || b == Dump
      ensures Follows(s, acts + [a], tag, given + GivenBy(cfg, RunFrom(cfg, s, acts), a, tag))
      ensures RunFrom(cfg, s, acts + [a]) == Next(cfg, RunFrom(cfg, s, acts), a)
    {
      hide Next;
      hide Shows;
      hide GivenBy;
      assert (acts + [a])[..|acts|] == acts;
    }

    /** Reads on: past an entry with a committed id, or takes it in hand, or meets the end of the files. */
    method ReadNext(tag: Tag, ghost s: State) returns (e: Option<Entry>, end: bool)
      requires Valid() && Shows(s) && tag in tag2JMap && tag2JMap[tag].loading && tag !in s.loaders
      modifies this`tag2JMap
      ensures Valid() && Shows(Next(cfg, s, LoadNext(tag)))
      ensures tag in tag2JMap && tag2JMap[tag].loading == !end
      ensures JournalPass.InHand(Next(cfg, s, LoadNext(tag)), tag) == if e.Some? then [e.value] else []
      ensures end <==> old(tag2JMap)[tag].legacy == []
      ensures end ==> e.None?
      ensures !end ==> |tag2JMap[tag].legacy| < |old(tag2JMap)[tag].legacy|
    {
      var files := tag2JMap[tag];
      end := files.legacy == [];
      if end {
        tag2JMap := tag2JMap[tag := files.(loading := false)];
        return None, true;
      }
      tag2JMap := tag2JMap[tag := files.(legacy := files.legacy[1..])];
      e := if files.legacy[0].id in files.loaded then None else Some(files.legacy[0]);
    }

    method LoadOne(tag: Tag, ghost s: State, ghost before: seq<Action>, ghost given: seq<Entry>)
      returns (e: Option<Entry>, end: bool, ghost acts: seq<Action>)
      requires Follows(s, before, tag, given) && tag2JMap[tag].loading && Holding(s, before, tag) == []
      modifies this`tag2JMap
      ensures Follows(s, acts, tag, given) && Holding(s, acts, tag) == if e.Some? then [e.value] else []
      ensures tag2JMap[tag].loading == !end && (end ==> e.None?)
      ensures !end ==> |tag2JMap[tag].legacy| < |old(tag2JMap)[tag].legacy|
    {
      e, end := ReadNext(tag, RunFrom(cfg, s, before));
      hide Next;
      hide Shows;
      hide Valid;
      Stepped(s, before, LoadNext(tag), tag, given);
      acts := before + [LoadNext(tag)];
    }

    /** LoadLegacyBuf of the library: the next entry without a committed id, or None at the end of the files. */
    method LoadLegacyBuf(tag: Tag, ghost s: State, ghost before: seq<Action>, ghost given: seq<Entry>)
      returns (e: Option<Entry>, ghost acts: seq<Action>)
      requires Follows(s, before, tag, given) && tag2JMap[tag].loading && Holding(s, before, tag) == []
      modifies this`tag2JMap
      ensures Follows(s, acts, tag, given)
      ensures Holding(s, acts, tag) == if e.Some? then [e.value] else []
      ensures tag2JMap[tag].loading == e.Some?
      ensures e.Some? ==> |tag2JMap[tag].legacy| < |old(tag2JMap)[tag].legacy|
    {
      acts := before;
      while true
        invariant Follows(s, acts, tag, given) && tag2JMap[tag].loading && Holding(s, acts, tag) == []
        invariant |tag2JMap[tag].legacy| <= |old(tag2JMap)[tag].legacy|
        decreases |tag2JMap[tag].legacy|
      {
        hide Next;
        hide Shows;
        hide Valid;
        var end;
        e, end, acts := LoadOne(tag, s, acts, given);
        if end || e.Some? {
          return;
        }
      }
    }

    method Push(tag: Tag, msg: Entry, ghost s: State)
      requires Valid() && Shows(s) && JournalPass.InHand(s, tag) == [msg] && |dumpChan| < cfg.dumpLen
      modifies this`dumpChan
      ensures Valid() && Shows(Next(cfg, s, PushBack(tag)))
      ensures JournalPass.InHand(Next(cfg, s, PushBack(tag)), tag) == []
      ensures GivenBy(cfg, s, PushBack(tag), tag) == [msg]
    {
      dumpChan := dumpChan + [msg];
    }

    /** Sends an entry to the dumper. While its channel is full this waits, and the dumper takes its turns. */
    method GiveBack(tag: Tag, msg: Entry, ghost s: State, ghost before: seq<Action>, ghost given: seq<Entry>)
      returns (ghost acts: seq<Action>)
      requires Follows(s, before, tag, given) && Holding(s, before, tag) == [msg] && cfg.dumpLen > 0
      modifies this
      ensures Follows(s, acts, tag, given + [msg]) && Holding(s, acts, tag) == []
      ensures tag2JMap[tag].loading == old(tag2JMap)[tag].loading
      ensures tag2JMap[tag].legacy == old(tag2JMap)[tag].legacy
    {
      acts := before;
      while |dumpChan| >= cfg.dumpLen
        invariant Follows(s, acts, tag, given) && Holding(s, acts, tag) == [msg]
        invariant tag2JMap[tag].loading == old(tag2JMap)[tag].loading
        invariant tag2JMap[tag].legacy == old(tag2JMap)[tag].legacy
        decreases |dumpChan|
      {
        acts := LetDump(tag, s, acts, given);
      }
      Push(tag, msg, RunFrom(cfg, s, acts));
      hide Next;
      hide Shows;
      hide Valid;
      Stepped(s, acts, PushBack(tag), tag, given);
      acts := acts + [PushBack(tag)];
    }

    /** A turn of the dumper in the middle of a pass. */
    method LetDump(tag: Tag, ghost s: State, ghost before: seq<Action>, ghost given: seq<Entry>)
      returns (ghost acts: seq<Action>)
      requires Follows(s, before, tag, given) && dumpChan != []
      modifies this
      ensures Follows(s, acts, tag, given) && Holding(s, acts, tag) == Holding(s, before, tag)
      ensures tag2JMap[tag].loading == old(tag2JMap)[tag].loading
      ensures tag2JMap[tag].legacy == old(tag2JMap)[tag].legacy
      ensures dumpChan == old(dumpChan)[1..]
    {
      ghost var n := RunFrom(cfg, s, before);
      DumpMsg(n);
      OtherDump(cfg, n, tag);
      hide Next;
      Stepped(s, before, Dump, tag, given);
      acts := before + [Dump];
    }

    /** One legacy pass over the files of a tag, and the largest id that it sends to the dumper. */
    method ProcessLegacyMsg(tag: Tag, ghost s: State)
      returns (maxID: int, ghost sent: seq<Entry>, ghost acts: seq<Action>)
      requires Valid() && Shows(s) && tag in tag2JMap && tag2JMap[tag].loading && tag !in s.loaders && cfg.dumpLen > 0
      modifies this
      ensures Follows(s, acts, tag, sent)
      ensures !tag2JMap[tag].loading && Holding(s, acts, tag) == []
      ensures sent == Uncommitted(old(tag2JMap)[tag].legacy, old(tag2JMap)[tag].loaded)
      ensures maxID == MaxId(sent)
    {
      maxID, sent, acts := 0, [], [];
      while true
        invariant Follows(s, acts, tag, sent) && tag2JMap[tag].loading && Holding(s, acts, tag) == []
        invariant maxID == MaxId(sent)
        decreases |tag2JMap[tag].legacy|
      {
        hide Follows;
        hide Holding;
        var e;
        e, acts := LoadLegacyBuf(tag, s, acts, sent);
        if e == None {
          break;
        }
        if e.value.id > maxID {
          maxID := e.value.id;
        }
        MaxIdSnoc(sent, e.value);
        acts := GiveBack(tag, e.value, s, acts, sent);
        sent := sent + [e.value];
      }
      AllGiven(s, acts, tag, sent);
    }

    lemma AllGiven(s: State, acts: seq<Action>, tag: Tag, sent: seq<Entry>)
      requires Follows(s, acts, tag, sent) && Holding(s, acts, tag) == [] && !tag2JMap[tag].loading
      requires tag in s.tag2JMap && s.tag2JMap[tag].loading && tag !in s.loaders
      ensures sent == Uncommitted(s.tag2JMap[tag].legacy, s.tag2JMap[tag].loaded)
    {
      hide Next;
      hide RunFrom;
      PassIsExact(cfg, s, acts, tag);
    }

    /** A turn of the commit runner; `full`: others have filled its channel in the meantime. */
    method CommitMsg(full: bool, ghost s: State) returns (shed: bool)
      requires Valid() && Shows(s) && commitChan != []
      modifies this
      ensures Valid()
      ensures Shows(Next(cfg, s, RunCommit(full)))
      ensures shed <==> full && |ChanOf(old(tag2JJCommitChanMap), old(commitChan)[0].tag)| >= cfg.childIdLen
    {
      var msg := commitChan[0];
      RunCommitIs(cfg, s, full);
      hide Next;
      if msg.tag !in tag2JJCommitChanMap {
        CreateJournalRunner(msg.tag, s);
      }
      shed := PassOn(msg, full, Create(s, msg.tag));
    }

    /** Takes a message off the commit channel and sends it on. */
    method PassOn(msg: Commit, full: bool, ghost s: State) returns (shed: bool)
      requires Valid() && Shows(s) && commitChan != [] && commitChan[0] == msg && msg.tag in tag2JJCommitChanMap
      modifies this`commitChan, this`tag2JJCommitChanMap
      ensures Valid() && (shed <==> full && |old(tag2JJCommitChanMap)[msg.tag]| >= cfg.childIdLen)
      ensures Shows(s.(commits := Committing(cfg, Popped(s.commits), msg, full)))
    {
      shed := false;
      commitChan := commitChan[1..];
      var chani := tag2JJCommitChanMap[msg.tag];
      if |chani| < cfg.childIdLen {
        tag2JJCommitChanMap := tag2JJCommitChanMap[msg.tag := chani + [msg]];
      } else if !full {
        commitChan := commitChan + [msg];
      } else {
        shed := true;
      }
    }
  }

  lemma NextAttempt(tag: Tag, ids: seq<int>, oks: seq<bool>, k: nat)
    requires k < |ids|
    ensures AttemptsFor(tag, ids[..k + 1], oks)
         == AttemptsFor(tag, ids[..k], oks) + [Attempt(tag, ids[k], k < |oks| && oks[k])]
    ensures WrittenIn(AttemptsFor(tag, ids[..k + 1], oks))
         == WrittenIn(AttemptsFor(tag, ids[..k], oks)) + if k < |oks| && oks[k] then {ids[k]} else {}
  {
    assert ids[..k + 1][..k] == ids[..k];
    var a, a' := AttemptsFor(tag, ids[..k], oks), AttemptsFor(tag, ids[..k + 1], oks);
    assert a'[..|a|] == a;
    forall id ensures id in WrittenIn(a') <==> id in WrittenIn(a) || (k < |oks| && oks[k] && id == ids[k]) {
      if id in WrittenIn(a) {
        var i :| 0 <= i < |a| && a[i].ok && a[i].id == id;
        assert a'[i].ok && a'[i].id == id;
      }
      assert a'[|a|] == Attempt(tag, ids[k], k < |oks| && oks[k]);
    }
  }
}
