/** The producer never looks at the id of a message: it tells messages apart by object (producer.go:39-45). Runs that
    differ in ids only go through the same states. That the objects themselves do not meet is in ProducerIsolation. */
module ProducerBlind {
  import opened Producer

  function BlindInfo(i: Info): Info {
    i.(id := 0, extIds := [])
  }

  function BlindMap(info: map<Obj, Info>): map<Obj, Info> {
    map o | o in info :: BlindInfo(info[o])
  }

  function BlindFinals(fs: seq<Final>): (r: seq<Final>)
    ensures |r| == |fs|
  {
    if fs == [] then []
    else BlindFinals(fs[..|fs| - 1]) + [fs[|fs| - 1].(info := BlindInfo(fs[|fs| - 1].info))]
  }

  function BlindUse(u: Use): Use {
    u.(info := BlindInfo(u.info))
  }

  function BlindUses(us: seq<Use>): (r: seq<Use>)
    ensures |r| == |us| && forall i :: 0 <= i < |us| ==> r[i] == BlindUse(us[i])
  {
    if us == [] then [] else BlindUses(us[..|us| - 1]) + [BlindUse(us[|us| - 1])]
  }

  /** A state with the ids blanked out. */
  function Blind(s: State): State {
    s.(info := BlindMap(s.info), finals := BlindFinals(s.finals), uses := BlindUses(s.uses))
  }

  function BlindAct(a: Action): Action {
    if a.Submit? then a.(id := 0, extIds := []) else a
  }

  function BlindActs(acts: seq<Action>): seq<Action> {
    if acts == [] then [] else BlindActs(acts[..|acts| - 1]) + [BlindAct(acts[|acts| - 1])]
  }

  lemma FinishBlind(s: State, o: Obj, n: nat, verdict: bool)
    requires o in s.info
    ensures Finish(Blind(s), o, n, verdict) == Blind(Finish(s, o, n, verdict))
  {
    hide AcksOf;
    hide BlockedOf;
    hide TokensOf;
    var b, f := Finish(Blind(s), o, n, verdict), Finish(s, o, n, verdict);
    assert b.info == BlindMap(f.info);
    assert f.finals[..|f.finals| - 1] == s.finals;
    assert b.finals == BlindFinals(f.finals);
    assert b.uses == BlindUses(f.uses);
  }

  lemma ForkBlind(c: Config, s: State, f: nat, full: bool)
    requires f < |s.forks|
    ensures ForkStep(c, Blind(s), f, full) == Blind(ForkStep(c, s, f, full))
  {
    hide NextPc;
    hide NextReg;
    hide NextMail;
    hide Enlist;
    hide Parties;
    hide Holding;
    hide BlindFinals;
    hide BlindUses;
    assert TagOf(Blind(s), s.forks[f]) == TagOf(s, s.forks[f]);
  }

  lemma TalliedBlind(s: State, t: Token, ok: bool)
    ensures Tallied(Blind(s), t, ok) == Blind(Tallied(s, t, ok))
  {
    hide Finish;
    hide BlindFinals;
    hide BlindUses;
    hide Count;
    if t.obj in s.info && s.info[t.obj].tag in s.reg.tag2NSender {
      var n := s.reg.tag2NSender[s.info[t.obj].tag];
      var s' := s.(mail := s.mail.(loc := s.mail.loc[t := Collected]));
      match Count(s.pending, t.obj, ok, n)
      case Wait(_) =>
      case Done(pending, verdict) => FinishBlind(s'.(pending := pending), t.obj, n, verdict);
    }
  }

  lemma SubmitBlind(s: State, o: Obj, tag: Tag, id: int, extIds: seq<int>)
    ensures Submitted(Blind(s), o, tag, 0, []) == Blind(Submitted(s, o, tag, id, extIds))
  {
    var b, n := Submitted(Blind(s), o, tag, 0, []), Submitted(s, o, tag, id, extIds);
    assert b.info == BlindMap(n.info);
    assert b.uses == BlindUses(n.uses);
  }

  lemma NextBlind(c: Config, s: State, a: Action)
    ensures Next(c, Blind(s), BlindAct(a)) == Blind(Next(c, s, a))
  {
    hide ForkStep;
    hide Submitted;
    hide Tallied;
    hide Reported;
    hide BlindFinals;
    hide BlindUses;
    match a
    case Submit(o, tag, id, extIds) => SubmitBlind(s, o, tag, id, extIds);
    case Receive(f) =>
    case Fork(f, full) => if f < |s.forks| { ForkBlind(c, s, f, full); }
    case Report(k, i, ok) =>
    case Collect(ok) =>
      if ok && s.mail.successed != [] {
        TalliedBlind(s.(mail := s.mail.(successed := s.mail.successed[1..])), s.mail.successed[0], true);
      } else if !ok && s.mail.failed != [] {
        TalliedBlind(s.(mail := s.mail.(failed := s.mail.failed[1..])), s.mail.failed[0], false);
      }
  }

  lemma BlindActsSnoc(acts: seq<Action>)
    requires acts != []
    ensures BlindActs(acts) != []
    ensures BlindActs(acts)[..|BlindActs(acts)| - 1] == BlindActs(acts[..|acts| - 1])
    ensures BlindActs(acts)[|BlindActs(acts)| - 1] == BlindAct(acts[|acts| - 1])
  {
  }

  /** Blanking the ids of a run blanks the ids of its states, and changes nothing else: no count, no verdict, no order.
      */
  lemma {:induction false} IdsNeverMatter(c: Config, nfork: nat, acts: seq<Action>)
    ensures Run(c, nfork, BlindActs(acts)) == Blind(Run(c, nfork, acts))
    decreases |acts|
  {
    if acts == [] {
      assert BlindMap(map[]) == map[];
    } else {
      var before := acts[..|acts| - 1];
      IdsNeverMatter(c, nfork, before);
      BlindActsSnoc(acts);
      NextBlind(c, Run(c, nfork, before), acts[|acts| - 1]);
      RunNext(c, nfork, BlindActs(acts));
    }
  }

  lemma RunNext(c: Config, nfork: nat, acts: seq<Action>)
    requires acts != []
    ensures Run(c, nfork, acts) == Next(c, Run(c, nfork, acts[..|acts| - 1]), acts[|acts| - 1])
  {
  }
}
