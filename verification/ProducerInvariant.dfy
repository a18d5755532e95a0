/** What every step of the producer keeps: one predicate per part of its state. */
module ProducerInvariant {
  import opened Options
  import opened Producer

  ghost predicate NoDup<T>(q: seq<T>) {
    forall i, j :: 0 <= i < j < |q| ==> q[i] != q[j]
  }

  // ---- The registries of tags and senders ----

  predicate Locked(pc: Pc) {
    match pc
    case Recheck(_) => true
    case Build(_, _, _) => true
    case Spawn(_, _, _) => true
    case PublishCount(_, _) => true
    case PublishCaches(_, _) => true
    case UnlockSend(_, _) => true
    case MarkUnsupported(_) => true
    case PutUnsupported(_) => true
    case UnlockIdle => true
    case _ => false
  }

  /** At most one fork is inside the critical section, and it is the one that holds the lock. */
  ghost predicate Locks(r: Registry, forks: seq<Pc>) {
    && (r.lock.Some? ==> r.lock.value < |forks|)
    && forall f :: 0 <= f < |forks| ==> (Locked(forks[f]) <==> r.lock == Some(f))
  }

  /** What a visible tag promises to whoever looks it up. */
  ghost predicate Published(c: Config, r: Registry) {
    && (forall tag :: tag in r.tag2NSender ==> r.tag2NSender[tag] == Parties(c, tag))
    && (forall tag :: tag in r.tag2SenderCaches ==>
          tag in r.tag2NSender && r.tag2SenderCaches[tag] == Accept(c, c.senders, tag) != [])
    && (forall tag :: tag in r.unSupportedTags ==> tag in r.tag2NSender && Accept(c, c.senders, tag) == [])
  }

  ghost predicate SpawnedOnce(r: Registry) {
    NoDup(r.spawnLog) && forall k :: k in r.spawnLog <==> k in r.sender2Cache
  }

  /** What a fork knows at each point. */
  ghost predicate PcOk(c: Config, r: Registry, tag: Tag, pc: Pc) {
    match pc
    case Build(o, i, acc) => i <= |c.senders| && acc == Accept(c, c.senders[..i], tag)
    case Spawn(o, i, acc) =>
      && i < |c.senders| && acc == Accept(c, c.senders[..i], tag) && c.supports(c.senders[i], tag)
      && c.senders[i] !in r.sender2Cache
    case PublishCount(o, acc) => acc == Accept(c, c.senders, tag)
    case PublishCaches(o, acc) => acc == Accept(c, c.senders, tag) != [] && tag in r.tag2NSender
    case UnlockSend(o, acc) => acc == Accept(c, c.senders, tag) != [] && tag in r.tag2NSender
    case Sending(o, acc, j) => acc == Accept(c, c.senders, tag) && j < |acc| && tag in r.tag2NSender
    case MarkUnsupported(o) => Accept(c, c.senders, tag) == [] && tag in r.tag2NSender
    case PutUnsupported(o) => Accept(c, c.senders, tag) == [] && tag in r.tag2NSender
    case SendUnsupported(o) => Accept(c, c.senders, tag) == [] && tag in r.tag2NSender
    case _ => true
  }

  ghost predicate Pcs(c: Config, s: State) {
    forall f :: 0 <= f < |s.forks| ==>
      && (ObjOf(s.forks[f]).Some? ==> ObjOf(s.forks[f]).value in s.info)
      && PcOk(c, s.reg, TagOf(s, s.forks[f]), s.forks[f])
  }

  // ---- The messages ----

  ghost predicate Queue(inChan: seq<Obj>, stage: map<Obj, Stage>) {
    NoDup(inChan) && forall o :: o in inChan <==> o in stage && stage[o] == Queued
  }

  ghost predicate Holders(forks: seq<Pc>, stage: map<Obj, Stage>) {
    && (forall o :: o in stage && stage[o].Held? ==> stage[o].f < |forks| && Holding(forks[stage[o].f]) == Some(o))
    && (forall f :: 0 <= f < |forks| && Holding(forks[f]).Some? ==>
          Holding(forks[f]).value in stage && stage[Holding(forks[f]).value] == Held(f))
  }

  ghost predicate Stages(s: State) {
    && (forall o :: o in s.stage <==> o in s.info)
    && (forall o :: o in s.stage && s.stage[o] == Sent ==> o in s.info && s.info[o].tag in s.reg.tag2NSender)
  }

  // ---- The sends ----

  ghost predicate Alive(c: Config, s: State, t: Token) {
    t.obj in s.info && t.obj in s.stage && s.stage[t.obj] == Sent && t.slot < Parties(c, s.info[t.obj].tag)
  }

  /** A message that is being sent has one send for each of its parties, and no other message has any. */
  ghost predicate Enlisted(c: Config, s: State) {
    forall t :: t in s.mail.loc <==> Alive(c, s, t)
  }

  ghost predicate IsAt(loc: map<Token, Loc>, t: Token, l: Loc) {
    t in loc && loc[t] == l
  }

  ghost predicate AtForks(forks: seq<Pc>, loc: map<Token, Loc>) {
    && (forall f, t :: 0 <= f < |forks| ==> (Remaining(forks[f], t) <==> IsAt(loc, t, AtFork(f))))
    && (forall t :: t in loc && loc[t].AtFork? ==> loc[t].f < |forks|)
  }

  /** A channel holds exactly the sends that are at it, each once. */
  ghost predicate Holds(q: seq<Token>, loc: map<Token, Loc>, l: Loc) {
    NoDup(q) && forall t :: t in q <==> IsAt(loc, t, l)
  }

  ghost predicate IsReported(loc: map<Token, Loc>, t: Token) {
    t in loc && (loc[t] == AtSuccess || loc[t] == AtFailed || loc[t] == Collected)
  }

  ghost predicate Outcomes(loc: map<Token, Loc>, acks: map<Token, bool>) {
    && (forall t :: t in acks <==> IsReported(loc, t))
    && (forall t :: IsAt(loc, t, AtSuccess) ==> t in acks && acks[t])
    && (forall t :: IsAt(loc, t, AtFailed) ==> t in acks && !acks[t])
  }

  ghost predicate Channels(m: Mail) {
    && (forall k :: Holds(Inbox(m, k), m.loc, AtInbox(k)))
    && Holds(m.successed, m.loc, AtSuccess) && Holds(m.failed, m.loc, AtFailed)
    && Outcomes(m.loc, m.acks)
  }

  // ---- The collector ----

  ghost function CollectedOf(loc: map<Token, Loc>, o: Obj): set<Token> {
    set t | t in loc && t.obj == o && loc[t] == Collected
  }

  ghost predicate AllTrue(acks: map<Token, bool>, ts: set<Token>) {
    forall t :: t in ts ==> t in acks && acks[t]
  }

  /** The count of a message is the number of its outcomes taken so far, never all of them. */
  ghost predicate TallyOk(c: Config, s: State, o: Obj) {
    var got := CollectedOf(s.mail.loc, o);
    if o in s.pending then
      && o in s.info
      && got != {} && s.pending[o].count == |got| < Parties(c, s.info[o].tag)
      && (s.pending[o].isAllSuccessed <==> AllTrue(s.mail.acks, got))
    else got == {}
  }

  ghost predicate Tallies(c: Config, s: State) {
    forall o :: TallyOk(c, s, o)
  }

  // ---- The verdicts ----

  ghost predicate FinalOk(c: Config, fin: Final) {
    && (forall j :: j in fin.acks <==> 0 <= j < Parties(c, fin.info.tag))
    && (fin.committed <==> forall j :: j in fin.acks ==> fin.acks[j])
  }

  ghost predicate Verdicts(c: Config, s: State) {
    forall i :: 0 <= i < |s.finals| ==> FinalOk(c, s.finals[i])
  }

  ghost predicate UseOk(s: State, u: nat, use: Use) {
    && use.info.use == u
    && match use.ended
       case None => use.obj in s.info && s.info[use.obj] == use.info
       case Some(i) => i < |s.finals| && s.finals[i].obj == use.obj && s.finals[i].info == use.info
  }

  /** Each use of an object has ended with one final of its own, or is the one use of that object still alive. */
  ghost predicate UsesOk(s: State) {
    && (forall o :: o in s.info ==> s.info[o].use < |s.uses| && s.uses[s.info[o].use] == Use(o, s.info[o], None))
    && (forall i :: 0 <= i < |s.finals| ==>
          s.finals[i].info.use < |s.uses| &&
          s.uses[s.finals[i].info.use] == Use(s.finals[i].obj, s.finals[i].info, Some(i)))
    && (forall u :: 0 <= u < |s.uses| ==> UseOk(s, u, s.uses[u]))
  }

  ghost predicate Registries(c: Config, s: State) {
    Locks(s.reg, s.forks) && Published(c, s.reg) && SpawnedOnce(s.reg) && Pcs(c, s)
  }

  ghost predicate Messages(s: State) {
    Queue(s.inChan, s.stage) && Holders(s.forks, s.stage) && Stages(s)
  }

  ghost predicate Sends(c: Config, s: State) {
    Enlisted(c, s) && AtForks(s.forks, s.mail.loc) && Channels(s.mail)
  }

  ghost predicate Ends(c: Config, s: State) {
    Tallies(c, s) && Verdicts(c, s) && UsesOk(s) && !s.panicked
  }

  ghost predicate Inv(c: Config, s: State) {
    Registries(c, s) && Messages(s) && Sends(c, s) && Ends(c, s)
  }
}
