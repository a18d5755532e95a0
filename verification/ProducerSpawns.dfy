/** A sender is spawned before anything is put into its inbox (producer.go:264-280, 309-325). */
module ProducerSpawns {
  import opened Producer

  ghost predicate AllSpawned(r: Registry, acc: seq<Sender>) {
    forall k :: k in acc ==> k in r.sender2Cache
  }

  /** The senders that a fork has lined up. */
  function AccOf(pc: Pc): seq<Sender> {
    match pc
    case Build(_, _, acc) => acc
    case Spawn(_, _, acc) => acc
    case PublishCount(_, acc) => acc
    case PublishCaches(_, acc) => acc
    case UnlockSend(_, acc) => acc
    case Sending(_, acc, _) => acc
    case _ => []
  }

  ghost predicate Spawned(s: State) {
    && (forall f :: 0 <= f < |s.forks| ==> AllSpawned(s.reg, AccOf(s.forks[f])))
    && (forall tag :: tag in s.reg.tag2SenderCaches ==> AllSpawned(s.reg, s.reg.tag2SenderCaches[tag]))
    && (forall k :: Inbox(s.mail, k) != [] ==> k in s.reg.sender2Cache)
  }

  lemma PcSpawned(c: Config, r: Registry, f: nat, tag: Tag, pc: Pc)
    requires AllSpawned(r, AccOf(pc)) && (forall t :: t in r.tag2SenderCaches ==> AllSpawned(r, r.tag2SenderCaches[t]))
    ensures var n := NextReg(c, r, f, tag, pc);
      && AllSpawned(n, AccOf(NextPc(c, r, tag, pc)))
      && (forall t :: t in n.tag2SenderCaches ==> AllSpawned(n, n.tag2SenderCaches[t]))
      && r.sender2Cache <= n.sender2Cache
  {
  }

  lemma MailSpawned(c: Config, r: Registry, m: Mail, pc: Pc, full: bool, k: Sender)
    requires AllSpawned(r, AccOf(pc)) && (Inbox(m, k) != [] ==> k in r.sender2Cache)
    ensures Inbox(NextMail(c, m, pc, full), k) != [] ==> k in r.sender2Cache
  {
  }

  lemma ForkSpawned(c: Config, s: State, f: nat, full: bool)
    requires f < |s.forks| && Spawned(s)
    ensures Spawned(ForkStep(c, s, f, full))
  {
    hide NextPc;
    hide NextReg;
    hide NextMail;
    hide AccOf;
    hide Parties;
    hide Holding;
    var n, pc := ForkStep(c, s, f, full), s.forks[f];
    PcSpawned(c, s.reg, f, TagOf(s, pc), pc);
    forall k ensures Inbox(n.mail, k) != [] ==> k in n.reg.sender2Cache {
      MailSpawned(c, s.reg, s.mail, pc, full, k);
    }
    forall g | 0 <= g < |n.forks| ensures AllSpawned(n.reg, AccOf(n.forks[g])) {
      if g != f { assert AllSpawned(s.reg, AccOf(s.forks[g])); }
    }
  }

  /** The collector touches neither forks, registries nor inboxes. */
  lemma CollectingSame(s: State, ok: bool)
    ensures var n := Collecting(s, ok);
      n.forks == s.forks && n.reg == s.reg && n.mail.inboxes == s.mail.inboxes
  {
    hide Count;
    hide AcksOf;
    hide BlockedOf;
    hide EndUse;
    hide TokensOf;
  }

  lemma SameSpawned(s: State, n: State)
    requires Spawned(s) && n.forks == s.forks && n.reg == s.reg
    requires forall k :: Inbox(n.mail, k) != [] ==> Inbox(s.mail, k) != []
    ensures Spawned(n)
  {
  }

  lemma ReceiveSpawned(s: State, f: nat)
    requires Spawned(s) && f < |s.forks| && s.inChan != []
    ensures Spawned(Received(s, f))
  {
  }

  lemma OthersSpawned(c: Config, s: State, a: Action)
    requires Spawned(s) && !a.Fork?
    ensures Spawned(Next(c, s, a))
  {
    hide Collecting;
    hide Spawned;
    hide Drop;
    match a
    case Submit(o, tag, id, extIds) => SameSpawned(s, Next(c, s, a));
    case Receive(f) => if f < |s.forks| && s.inChan != [] { ReceiveSpawned(s, f); }
    case Report(k, i, ok) => SameSpawned(s, Next(c, s, a));
    case Collect(ok) =>
      CollectingSame(s, ok);
      if !s.panicked { SameSpawned(s, Next(c, s, a)); }
  }

  /** After any run, a sender with anything in its inbox has been spawned, and so has every sender of a cached list. */
  lemma {:induction false} SpawnedBeforeUse(c: Config, nfork: nat, acts: seq<Action>)
    ensures Spawned(Run(c, nfork, acts))
    decreases |acts|
  {
    hide ForkStep;
    if acts != [] {
      var s, a := Run(c, nfork, acts[..|acts| - 1]), acts[|acts| - 1];
      SpawnedBeforeUse(c, nfork, acts[..|acts| - 1]);
      if a.Fork? {
        if a.f < |s.forks| { ForkSpawned(c, s, a.f, a.full); }
      } else {
        OthersSpawned(c, s, a);
      }
    }
  }
}
