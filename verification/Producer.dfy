/** The acknowledgement protocol of internal/controller/producer.go as a state machine: NFork producer forks with
    their double-checked registration of tags, the senders, and the one collector of outcomes. Every
    access to a shared map, the lock or a channel is a step of its own. */
module Producer {
  import opened Options

  type Tag = string
  // Identities: of message objects, which are recycled, and of senders.
  type Obj = nat
  type Sender = nat

  datatype Config = Config(senders: seq<Sender>, supports: (Sender, Tag) -> bool, discardWhenBlocked: Sender -> bool)

  /** What a message object carries while it is in the producer; `use` numbers the uses of the objects. */
  datatype Info = Info(use: nat, tag: Tag, id: int, extIds: seq<int>)

  /** One send of a message to one of the senders of its tag; `slot` is the place of the sender in their list. */
  datatype Token = Token(obj: Obj, slot: nat)

  /** Where a fork is. `acc` is acceptSenderCaches. */
  datatype Pc =
    | Idle
    | Check(o: Obj)
    | Load(o: Obj)
    | Want(o: Obj)
    | Recheck(o: Obj)
    | Build(o: Obj, i: nat, acc: seq<Sender>)
    | Spawn(o: Obj, i: nat, acc: seq<Sender>)
    | PublishCount(o: Obj, acc: seq<Sender>)
    | PublishCaches(o: Obj, acc: seq<Sender>)
    | UnlockSend(o: Obj, acc: seq<Sender>)
    | MarkUnsupported(o: Obj)
    | PutUnsupported(o: Obj)
    | UnlockIdle
    | SendUnsupported(o: Obj)
    | Sending(o: Obj, acc: seq<Sender>, j: nat)

  /** The maps of the producer that its forks share, and the lock. `spawnLog` is bookkeeping: each call of Spawn. */
  datatype Registry = Registry(
    lock: Option<nat>,
    tag2SenderCaches: map<Tag, seq<Sender>>,
    tag2NSender: map<Tag, nat>,
    unSupportedTags: set<Tag>,
    sender2Cache: set<Sender>,
    spawnLog: seq<Sender>)

  // Bookkeeping that the code does not have: the stage of each message, the place of each send, and every use ever
  // made of an object with the final that ended it.
  datatype Stage = Queued | Held(f: nat) | Sent
  datatype Loc = AtFork(f: nat) | AtInbox(k: Sender) | AtSuccess | AtFailed | Collected
  datatype Use = Use(obj: Obj, info: Info, ended: Option<nat>)

  /** The channels between the forks, the senders and the collector. An inbox stands for the channel of a sender and
      the batch it is filling. `loc`, `acks` and `blocked`, the sends that found an inbox full, are bookkeeping. */
  datatype Mail = Mail(
    inboxes: map<Sender, seq<Token>>,
    successed: seq<Token>,
    failed: seq<Token>,
    loc: map<Token, Loc>,
    acks: map<Token, bool>,
    blocked: set<Token>)

  datatype PendingDiscard = PendingDiscard(count: nat, isAllSuccessed: bool)

  /** What became of one use of a message object: `acks` are the outcomes of its sends, `blocked` those sends that found
      an inbox full. */
  datatype Final = Final(obj: Obj, info: Info, committed: bool, acks: map<nat, bool>, blocked: set<nat>)

  datatype State = State(
    inChan: seq<Obj>,
    forks: seq<Pc>,
    reg: Registry,
    mail: Mail,
    pending: map<Obj, PendingDiscard>,
    panicked: bool,
    finals: seq<Final>,
    info: map<Obj, Info>,
    stage: map<Obj, Stage>,
    uses: seq<Use>)

  datatype Action =
    | Submit(o: Obj, tag: Tag, id: int, extIds: seq<int>)  // a message arrives on InChan
    | Receive(f: nat)                                      // a fork takes it
    | Fork(f: nat, full: bool)                             // a fork makes its next step; `full`: the inbox is full
    | Report(k: Sender, i: nat, ok: bool)                  // a sender reports on a message of its inbox or batch
    | Collect(ok: bool)                                    // the collector takes an outcome

  /** The senders of a list that support a tag, in order. */
  function Accept(c: Config, ss: seq<Sender>, tag: Tag): seq<Sender> {
    if ss == [] then []
    else Accept(c, ss[..|ss| - 1], tag) + if c.supports(ss[|ss| - 1], tag) then [ss[|ss| - 1]] else []
  }

  /** How many outcomes a message of this tag gets: one per sender, and one if no sender supports the tag. */
  function Parties(c: Config, tag: Tag): (n: nat)
    ensures n >= 1
  {
    var acc := Accept(c, c.senders, tag);
    if acc == [] then 1 else |acc|
  }

  function Inbox(m: Mail, k: Sender): seq<Token> {
    if k in m.inboxes then m.inboxes[k] else []
  }

  function TokensOf(o: Obj, n: nat): set<Token> {
    set j | 0 <= j < n :: Token(o, j)
  }

  function Init(nfork: nat): State {
    State([], seq(nfork, _ => Idle), Registry(None, map[], map[], {}, {}, []), Mail(map[], [], [], map[], map[], {}),
          map[], false, [], map[], map[], [])
  }

  // ---- The forks ----

  function ObjOf(pc: Pc): Option<Obj> {
    match pc
    case Idle => None
    case UnlockIdle => None
    case _ => Some(pc.o)
  }

  /** The message that a fork has taken but not yet begun to send. */
  function Holding(pc: Pc): Option<Obj> {
    match pc
    case Sending(_, _, _) => None
    case SendUnsupported(_) => None
    case PutUnsupported(_) => None
    case _ => ObjOf(pc)
  }

  /** The sends that a fork has still to make. */
  predicate Remaining(pc: Pc, t: Token) {
    match pc
    case Sending(o, acc, j) => t.obj == o && j <= t.slot < |acc|
    case SendUnsupported(o) => t == Token(o, 0)
    case PutUnsupported(o) => t == Token(o, 0)
    case _ => false
  }

  /** Where the next step of a fork takes it, `tag` being the tag of its message. */
  function NextPc(c: Config, r: Registry, tag: Tag, pc: Pc): Pc {
    match pc
    case Idle => Idle
    case Check(o) => if tag in r.unSupportedTags then SendUnsupported(o) else Load(o)
    case SendUnsupported(o) => Idle
    case Load(o) => if tag in r.tag2SenderCaches then Sending(o, r.tag2SenderCaches[tag], 0) else Want(o)
    case Want(o) => if r.lock == None then Recheck(o) else pc
    case Recheck(o) => if tag in r.tag2SenderCaches then UnlockSend(o, r.tag2SenderCaches[tag]) else Build(o, 0, [])
    case Build(o, i, acc) =>
      if i >= |c.senders| then PublishCount(o, acc)
      else if !c.supports(c.senders[i], tag) then Build(o, i + 1, acc)
      else if c.senders[i] in r.sender2Cache then Build(o, i + 1, acc + [c.senders[i]])
      else Spawn(o, i, acc)
    case Spawn(o, i, acc) => if i < |c.senders| then Build(o, i + 1, acc + [c.senders[i]]) else pc
    case PublishCount(o, acc) => if acc == [] then MarkUnsupported(o) else PublishCaches(o, acc)
    case MarkUnsupported(o) => PutUnsupported(o)
    case PutUnsupported(o) => UnlockIdle
    case UnlockIdle => Idle
    case PublishCaches(o, acc) => UnlockSend(o, acc)
    case UnlockSend(o, acc) => Sending(o, acc, 0)
    case Sending(o, acc, j) => if j + 1 < |acc| then Sending(o, acc, j + 1) else Idle
  }

  /** What that step does to the shared maps and the lock. */
  function NextReg(c: Config, r: Registry, f: nat, tag: Tag, pc: Pc): Registry {
    match pc
    case Want(_) => if r.lock == None then r.(lock := Some(f)) else r
    case Spawn(_, i, _) =>
      if i < |c.senders|
      then r.(sender2Cache := r.sender2Cache + {c.senders[i]}, spawnLog := r.spawnLog + [c.senders[i]]) else r
    case PublishCount(_, acc) => r.(tag2NSender := r.tag2NSender[tag := if acc == [] then 1 else |acc|])
    case PublishCaches(_, acc) => r.(tag2SenderCaches := r.tag2SenderCaches[tag := acc])
    case MarkUnsupported(_) => r.(unSupportedTags := r.unSupportedTags + {tag})
    case UnlockSend(_, _) => r.(lock := None)
    case UnlockIdle => r.(lock := None)
    case _ => r
  }

  function Acked(m: Mail, t: Token, ok: bool): Mail {
    if ok then m.(successed := m.successed + [t], loc := m.loc[t := AtSuccess], acks := m.acks[t := true])
    else m.(failed := m.failed + [t], loc := m.loc[t := AtFailed], acks := m.acks[t := false])
  }

  function Deliver(m: Mail, t: Token, k: Sender): Mail {
    m.(inboxes := m.inboxes[k := Inbox(m, k) + [t]], loc := m.loc[t := AtInbox(k)])
  }

  /** What that step does to the channels. A full inbox is answered for by the fork itself. */
  function NextMail(c: Config, m: Mail, pc: Pc, full: bool): Mail {
    match pc
    case SendUnsupported(o) => Acked(m, Token(o, 0), true)
    case PutUnsupported(o) => Acked(m, Token(o, 0), true)
    case Sending(o, acc, j) =>
      if j >= |acc| then m
      else if full then Acked(m.(blocked := m.blocked + {Token(o, j)}), Token(o, j), c.discardWhenBlocked(acc[j]))
      else Deliver(m, Token(o, j), acc[j])
    case _ => m
  }

  /** Bookkeeping: from here on the message has a send for each of its parties. */
  function Enlist(m: Mail, f: nat, o: Obj, n: nat): Mail {
    m.(loc := m.loc + map t | t in TokensOf(o, n) :: AtFork(f))
  }

  function TagOf(s: State, pc: Pc): Tag {
    if ObjOf(pc).Some? && ObjOf(pc).value in s.info then s.info[ObjOf(pc).value].tag else ""
  }

  function ForkStep(c: Config, s: State, f: nat, full: bool): State
    requires f < |s.forks|
  {
    var pc := s.forks[f];
    var tag := TagOf(s, pc);
    var pc' := NextPc(c, s.reg, tag, pc);
    var s' := s.(forks := s.forks[f := pc'], reg := NextReg(c, s.reg, f, tag, pc));
    if Holding(pc).Some? && Holding(pc').None? then
      var o := Holding(pc).value;
      s'.(stage := s.stage[o := Sent], mail := Enlist(s.mail, f, o, Parties(c, tag)))
    else s'.(mail := NextMail(c, s.mail, pc, full))
  }

  // ---- The collector ----

  /** One outcome for message `o`, of which `n` are due: the new count table, and the verdict when it is the last. */
  datatype Tally = Wait(pending: map<Obj, PendingDiscard>) | Done(pending: map<Obj, PendingDiscard>, verdict: bool)

  function Count(pending: map<Obj, PendingDiscard>, o: Obj, ok: bool, n: nat): Tally {
    var p := if o in pending then PendingDiscard(pending[o].count + 1, pending[o].isAllSuccessed && ok)
             else PendingDiscard(1, ok);
    if p.count == n then Done(pending - {o}, p.isAllSuccessed) else Wait(pending[o := p])
  }

  function AcksOf(m: Mail, o: Obj, n: nat): map<nat, bool> {
    map j | 0 <= j < n && Token(o, j) in m.acks :: m.acks[Token(o, j)]
  }

  function BlockedOf(m: Mail, o: Obj, n: nat): set<nat> {
    set j | 0 <= j < n && Token(o, j) in m.blocked
  }

  function EndUse(uses: seq<Use>, u: nat, i: nat): seq<Use> {
    if u < |uses| then uses[u := uses[u].(ended := Some(i))] else uses
  }

  /** The message leaves the producer: it is committed or recycled, and its object may come back for another use. */
  function Finish(s: State, o: Obj, n: nat, verdict: bool): State
    requires o in s.info
  {
    s.(finals := s.finals + [Final(o, s.info[o], verdict, AcksOf(s.mail, o, n), BlockedOf(s.mail, o, n))],
       uses := EndUse(s.uses, s.info[o].use, |s.finals|),
       info := s.info - {o}, stage := s.stage - {o},
       mail := s.mail.(loc := s.mail.loc - TokensOf(o, n), acks := s.mail.acks - TokensOf(o, n),
                       blocked := s.mail.blocked - TokensOf(o, n)))
  }

  /** The collector has taken `t`, an outcome for its message; without a count for the tag it panics. */
  function Tallied(s: State, t: Token, ok: bool): State {
    if t.obj !in s.info || s.info[t.obj].tag !in s.reg.tag2NSender then s.(panicked := true)
    else
      var n := s.reg.tag2NSender[s.info[t.obj].tag];
      var s' := s.(mail := s.mail.(loc := s.mail.loc[t := Collected]));
      match Count(s.pending, t.obj, ok, n)
      case Wait(pending) => s'.(pending := pending)
      case Done(pending, verdict) => Finish(s'.(pending := pending), t.obj, n, verdict)
  }

  // ---- Runs ----

  function Drop<T>(q: seq<T>, i: nat): seq<T>
    requires i < |q|
  {
    q[..i] + q[i + 1..]
  }

  function Submitted(s: State, o: Obj, tag: Tag, id: int, extIds: seq<int>): State {
    var info := Info(|s.uses|, tag, id, extIds);
    s.(inChan := s.inChan + [o], info := s.info[o := info], stage := s.stage[o := Queued],
       uses := s.uses + [Use(o, info, None)])
  }

  function Received(s: State, f: nat): State
    requires f < |s.forks| && s.inChan != []
  {
    s.(forks := s.forks[f := Check(s.inChan[0])], inChan := s.inChan[1..], stage := s.stage[s.inChan[0] := Held(f)])
  }

  function Reported(m: Mail, k: Sender, i: nat, ok: bool): Mail
    requires i < |Inbox(m, k)|
  {
    Acked(m.(inboxes := m.inboxes[k := Drop(Inbox(m, k), i)]), Inbox(m, k)[i], ok)
  }

  function Collecting(s: State, ok: bool): State {
    if ok then
      if s.mail.successed == [] then s
      else Tallied(s.(mail := s.mail.(successed := s.mail.successed[1..])), s.mail.successed[0], true)
    else
      if s.mail.failed == [] then s
      else Tallied(s.(mail := s.mail.(failed := s.mail.failed[1..])), s.mail.failed[0], false)
  }

  /** The step of an action; one that is not possible leaves the state as it is. After a panic nothing moves. */
  function Next(c: Config, s: State, a: Action): State {
    if s.panicked then s
    else match a
      case Submit(o, tag, id, extIds) => if o in s.info then s else Submitted(s, o, tag, id, extIds)
      case Receive(f) => if f < |s.forks| && s.forks[f] == Idle && s.inChan != [] then Received(s, f) else s
      case Fork(f, full) => if f < |s.forks| then ForkStep(c, s, f, full) else s
      case Report(k, i, ok) => if i < |Inbox(s.mail, k)| then s.(mail := Reported(s.mail, k, i, ok)) else s
      case Collect(ok) => Collecting(s, ok)
  }

  function Run(c: Config, nfork: nat, acts: seq<Action>): State {
    if acts == [] then Init(nfork) else Next(c, Run(c, nfork, acts[..|acts| - 1]), acts[|acts| - 1])
  }
}
