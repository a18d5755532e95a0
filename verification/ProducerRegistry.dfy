/** A tag is worked out once: what the forks have found out about it stays known to all of them, and who comes later
    needs no lock (producer.go:251-308). */
module ProducerRegistry {
  import opened Options

  import opened Producer
  import opened ProducerInvariant
  import opened ProducerProof
  import opened ProducerSteps

  /** A fork has registered the count of its tag and is about to publish the rest. */
  predicate Publishing(pc: Pc) {
    pc.PublishCaches? || pc.MarkUnsupported?
  }

  ghost predicate InWork(s: State, tag: Tag) {
    exists f :: 0 <= f < |s.forks| && Publishing(s.forks[f]) && TagOf(s, s.forks[f]) == tag
  }

  /** A fork that looks the tag up finds what it needs. */
  predicate Known(c: Config, r: Registry, tag: Tag) {
    if Accept(c, c.senders, tag) == [] then tag in r.unSupportedTags else tag in r.tag2SenderCaches
  }

  ghost predicate Remembers(c: Config, s: State) {
    forall tag :: tag in s.reg.tag2NSender ==> Known(c, s.reg, tag) || InWork(s, tag)
  }

  /** What a step of a fork does to what is known. */
  lemma StepKnows(c: Config, r: Registry, f: nat, tag: Tag, pc: Pc)
    requires PcOk(c, r, tag, pc)
    ensures var n := NextReg(c, r, f, tag, pc);
      && (forall t :: Known(c, r, t) ==> Known(c, n, t))
      && (Publishing(pc) ==> Known(c, n, tag))
      && (forall t :: t in n.tag2NSender ==>
            t in r.tag2NSender
            || (t == tag && Publishing(NextPc(c, r, tag, pc)) && ObjOf(NextPc(c, r, tag, pc)) == ObjOf(pc)))
  {
    hide Accept;
  }

  lemma ForkRemembers(c: Config, s: State, f: nat, full: bool)
    requires f < |s.forks| && Registries(c, s) && Remembers(c, s)
    ensures Remembers(c, ForkStep(c, s, f, full))
  {
    hide NextPc;
    hide NextReg;
    hide NextMail;
    hide Enlist;
    hide Known;
    hide Published;
    hide SpawnedOnce;
    hide Locks;
    hide PcOk;
    hide Parties;
    hide Publishing;
    var pc, n := s.forks[f], ForkStep(c, s, f, full);
    assert PcOk(c, s.reg, TagOf(s, pc), pc);
    StepKnows(c, s.reg, f, TagOf(s, pc), pc);
    forall tag | tag in n.reg.tag2NSender ensures Known(c, n.reg, tag) || InWork(n, tag) {
      if tag !in s.reg.tag2NSender {
        assert Publishing(n.forks[f]) && TagOf(n, n.forks[f]) == tag;
      } else if !Known(c, s.reg, tag) {
        var g :| 0 <= g < |s.forks| && Publishing(s.forks[g]) && TagOf(s, s.forks[g]) == tag;
        if g != f { assert n.forks[g] == s.forks[g] && TagOf(n, n.forks[g]) == tag; }
      }
    }
  }

  /** Steps that leave registries and forks alone, and what the messages of the forks are. */
  lemma SameRemembers(c: Config, s: State, n: State)
    requires Remembers(c, s) && n.reg == s.reg && |n.forks| == |s.forks|
    requires forall f :: 0 <= f < |s.forks| && Publishing(s.forks[f]) ==>
               n.forks[f] == s.forks[f] && TagOf(n, n.forks[f]) == TagOf(s, s.forks[f])
    ensures Remembers(c, n)
  {
    hide Known;
    hide Publishing;
    hide TagOf;
    forall tag | tag in n.reg.tag2NSender ensures Known(c, n.reg, tag) || InWork(n, tag) {
      if !Known(c, s.reg, tag) {
        var g :| 0 <= g < |s.forks| && Publishing(s.forks[g]) && TagOf(s, s.forks[g]) == tag;
        assert Publishing(n.forks[g]) && TagOf(n, n.forks[g]) == tag;
      }
    }
  }

  lemma CollectLeaves(s: State, ok: bool)
    ensures var n := Collecting(s, ok);
      n.forks == s.forks && n.reg == s.reg && forall o :: o in n.info ==> o in s.info && n.info[o] == s.info[o]
  {
    hide Count;
    hide AcksOf;
    hide BlockedOf;
    hide EndUse;
    hide TokensOf;
  }

  /** What the steps of others leave: the registries, the forks that are publishing, and the tags of their messages. */
  lemma OthersLeave(c: Config, s: State, a: Action, f: nat)
    requires !a.Fork? && f < |s.forks| && Publishing(s.forks[f])
    requires ObjOf(s.forks[f]).value in s.info && ObjOf(s.forks[f]).value in Next(c, s, a).info
    requires |Next(c, s, a).forks| == |s.forks|
    ensures var n := Next(c, s, a); n.forks[f] == s.forks[f] && TagOf(n, n.forks[f]) == TagOf(s, s.forks[f])
  {
    hide Collecting;
    hide Drop;
    if a.Collect? { CollectLeaves(s, a.ok); }
  }

  lemma OthersRegister(c: Config, s: State, a: Action)
    requires !a.Fork?
    ensures Next(c, s, a).reg == s.reg && |Next(c, s, a).forks| == |s.forks|
  {
    hide Collecting;
    hide Drop;
    if a.Collect? { CollectLeaves(s, a.ok); }
  }

  lemma ObjectInside(c: Config, s: State, f: nat)
    requires Inv(c, s) && f < |s.forks| && Publishing(s.forks[f])
    ensures ObjOf(s.forks[f]).Some? && ObjOf(s.forks[f]).value in s.info
  {
    hide PcOk;
    assert Registries(c, s) && Pcs(c, s);
  }

  lemma NextRemembers(c: Config, s: State, a: Action)
    requires Inv(c, s) && Remembers(c, s)
    ensures Remembers(c, Next(c, s, a))
  {
    if a.Fork? {
      assert Registries(c, s);
      hide Inv;
      hide Registries;
      hide Remembers;
      hide ForkStep;
      if a.f < |s.forks| && !s.panicked { ForkRemembers(c, s, a.f, a.full); }
    } else {
      hide *;
      var n := Next(c, s, a);
      NextKept(c, s, a);
      OthersRegister(c, s, a);
      forall f: nat | f < |s.forks| && Publishing(s.forks[f])
        ensures n.forks[f] == s.forks[f] && TagOf(n, n.forks[f]) == TagOf(s, s.forks[f])
      {
        ObjectInside(c, s, f);
        StaysInside(c, s, a, f);
        OthersLeave(c, s, a, f);
      }
      SameRemembers(c, s, n);
    }
  }

  lemma ForksStay(c: Config, s: State, a: Action, f: nat)
    requires !a.Fork? && f < |s.forks| && Publishing(s.forks[f])
    ensures |Next(c, s, a).forks| == |s.forks| && Next(c, s, a).forks[f] == s.forks[f]
  {
    hide Collecting;
    hide Drop;
    if a.Collect? { CollectLeaves(s, a.ok); }
  }

  lemma StaysInside(c: Config, s: State, a: Action, f: nat)
    requires !a.Fork? && f < |s.forks| && Publishing(s.forks[f]) && Inv(c, Next(c, s, a))
    ensures ObjOf(s.forks[f]).Some? && ObjOf(s.forks[f]).value in Next(c, s, a).info
  {
    hide *;
    ForksStay(c, s, a, f);
    ObjectInside(c, Next(c, s, a), f);
  }

  /** After any run: a tag whose count is registered is known for good, its list in tag2SenderCaches or, if no sender
      supports it, in unSupportedTags, but for the moment until the fork that registered it has published that. */
  lemma {:induction false} RegisteredForGood(c: Config, nfork: nat, acts: seq<Action>)
    ensures Remembers(c, Run(c, nfork, acts))
    decreases |acts|
  {
    hide Next;
    hide Inv;
    if acts != [] {
      var front := acts[..|acts| - 1];
      RegisteredForGood(c, nfork, front);
      Always(c, nfork, front);
      NextRemembers(c, Run(c, nfork, front), acts[|acts| - 1]);
    }
  }

  /** So a fork with a message of such a tag goes straight on to send it, without lock and without change to any
      registry: to the senders of the list, or, unsupported, to the collector. */
  lemma KnownNeedsNoLock(c: Config, nfork: nat, acts: seq<Action>, f: nat)
    requires var s := Run(c, nfork, acts);
      && f < |s.forks| && s.forks[f].Check?
      && TagOf(s, s.forks[f]) in s.reg.tag2NSender && !InWork(s, TagOf(s, s.forks[f]))
    ensures var s := Run(c, nfork, acts);
      var n, m := Next(c, s, Fork(f, false)), Next(c, Next(c, s, Fork(f, false)), Fork(f, false));
      var o, acc := s.forks[f].o, Accept(c, c.senders, TagOf(s, s.forks[f]));
      if acc == [] then n.forks[f] == SendUnsupported(o) && n.reg == s.reg
      else m.forks[f] == Sending(o, acc, 0) && m.reg == s.reg
  {
    hide *;
    var s := Run(c, nfork, acts);
    Always(c, nfork, acts);
    RegisteredForGood(c, nfork, acts);
    Remembered(c, s, TagOf(s, s.forks[f]));
    PublishedNow(c, s);
    GoesOn(c, s, f);
  }

  lemma Remembered(c: Config, s: State, tag: Tag)
    requires Remembers(c, s) && tag in s.reg.tag2NSender && !InWork(s, tag)
    ensures Known(c, s.reg, tag)
  {
  }

  lemma PublishedNow(c: Config, s: State)
    requires Inv(c, s)
    ensures Published(c, s.reg) && !s.panicked
  {
  }

  lemma GoesOn(c: Config, s: State, f: nat)
    requires f < |s.forks| && s.forks[f].Check? && Known(c, s.reg, TagOf(s, s.forks[f]))
    requires Published(c, s.reg) && !s.panicked
    ensures var n, m := Next(c, s, Fork(f, false)), Next(c, Next(c, s, Fork(f, false)), Fork(f, false));
      var o, acc := s.forks[f].o, Accept(c, c.senders, TagOf(s, s.forks[f]));
      if acc == [] then n.forks[f] == SendUnsupported(o) && n.reg == s.reg
      else m.forks[f] == Sending(o, acc, 0) && m.reg == s.reg
  {
    hide Accept;
    hide NextMail;
    hide Enlist;
    hide Parties;
  }
}
