/** Message objects do not get in each other's way in the producer, whatever their ids: the books are kept by object
    (producer.go:39-45), since a message and its copy out of the journal carry one id. */
module ProducerIsolation {
  import opened Options

  import opened Producer
  import opened ProducerCollector
  import opened ProducerInvariant
  import opened ProducerProof

  /** The object that a step is about. */
  function ActsOn(s: State, a: Action): Option<Obj> {
    match a
    case Submit(o, _, _, _) => Some(o)
    case Receive(_) => if s.inChan == [] then None else Some(s.inChan[0])
    case Fork(f, _) => if f < |s.forks| then ObjOf(s.forks[f]) else None
    case Report(k, i, _) => if i < |Inbox(s.mail, k)| then Some(Inbox(s.mail, k)[i].obj) else None
    case Collect(ok) =>
      var q := if ok then s.mail.successed else s.mail.failed;
      if q == [] then None else Some(q[0].obj)
  }

  /** The finals of an object, in order. */
  function FinalsOf(fs: seq<Final>, o: Obj): seq<Final> {
    if fs == [] then []
    else FinalsOf(fs[..|fs| - 1], o) + if fs[|fs| - 1].obj == o then [fs[|fs| - 1]] else []
  }

  /** Two states agree on all that the producer knows of an object: what it carries, how far it is, where its sends are
      and what came of them, its count, and its verdicts. */
  ghost predicate SameFor(s: State, n: State, o: Obj) {
    && Get(n.info, o) == Get(s.info, o) && Get(n.stage, o) == Get(s.stage, o) && Get(n.pending, o) == Get(s.pending, o)
    && SameSends(s.mail, n.mail, o)
    && FinalsOf(n.finals, o) == FinalsOf(s.finals, o)
  }

  ghost predicate SameSends(m: Mail, n: Mail, o: Obj) {
    forall t: Token :: t.obj == o ==>
      Get(n.loc, t) == Get(m.loc, t) && Get(n.acks, t) == Get(m.acks, t) && (t in n.blocked <==> t in m.blocked)
  }

  lemma MailApart(c: Config, m: Mail, pc: Pc, full: bool, o: Obj)
    requires ObjOf(pc) != Some(o)
    ensures SameSends(m, NextMail(c, m, pc, full), o)
  {
  }

  lemma EnlistApart(m: Mail, f: nat, p: Obj, n: nat, o: Obj)
    requires p != o
    ensures SameSends(m, Enlist(m, f, p, n), o)
  {
  }

  lemma ForkApart(c: Config, s: State, f: nat, full: bool, o: Obj)
    requires f < |s.forks| && ObjOf(s.forks[f]) != Some(o)
    ensures SameFor(s, ForkStep(c, s, f, full), o)
  {
    hide NextPc;
    hide NextReg;
    hide NextMail;
    hide Enlist;
    hide SameSends;
    hide Parties;
    MailApart(c, s.mail, s.forks[f], full, o);
    if Holding(s.forks[f]).Some? {
      EnlistApart(s.mail, f, Holding(s.forks[f]).value, Parties(c, TagOf(s, s.forks[f])), o);
    }
  }

  lemma FinishApart(s: State, p: Obj, n: nat, verdict: bool, o: Obj)
    requires p in s.info && p != o
    ensures SameFor(s, Finish(s, p, n, verdict), o)
  {
    hide AcksOf;
    hide BlockedOf;
    hide EndUse;
    var fs := Finish(s, p, n, verdict).finals;
    assert fs[..|fs| - 1] == s.finals;
  }

  lemma TalliedApart(s: State, t: Token, ok: bool, o: Obj)
    requires t.obj != o
    ensures SameFor(s, Tallied(s, t, ok), o)
  {
    hide Finish;
    hide FinalsOf;
    if t.obj in s.info && s.info[t.obj].tag in s.reg.tag2NSender {
      var n := s.reg.tag2NSender[s.info[t.obj].tag];
      var s' := s.(mail := s.mail.(loc := s.mail.loc[t := Collected]));
      match Count(s.pending, t.obj, ok, n)
      case Wait(_) =>
      case Done(pending, verdict) => FinishApart(s'.(pending := pending), t.obj, n, verdict, o);
    }
  }

  /** A step that is about one object leaves what the producer knows of every other as it is, its count and its verdict
      included, and whatever their ids. */
  lemma StepsApart(c: Config, s: State, a: Action, o: Obj)
    requires ActsOn(s, a) != Some(o)
    ensures SameFor(s, Next(c, s, a), o)
  {
    hide ForkStep;
    hide Tallied;
    hide FinalsOf;
    match a
    case Submit(_, _, _, _) =>
    case Receive(f) =>
    case Fork(f, full) => if f < |s.forks| { ForkApart(c, s, f, full, o); }
    case Report(k, i, ok) =>
    case Collect(ok) =>
      if ok && s.mail.successed != [] {
        TalliedApart(s.(mail := s.mail.(successed := s.mail.successed[1..])), s.mail.successed[0], true, o);
      } else if !ok && s.mail.failed != [] {
        TalliedApart(s.(mail := s.mail.(failed := s.mail.failed[1..])), s.mail.failed[0], false, o);
      }
  }

  // ---- The collector's books, with one object left out ----

  const NO_BOOKS := Ledger(map[], [], [])

  function TakenFrom(s: State, t: Token, ok: bool): Outcome {
    Outcome(t.obj, if t.obj in s.info then Get(s.reg.tag2NSender, s.info[t.obj].tag) else None, ok)
  }

  function TakenBy(s: State, a: Action): seq<Outcome> {
    match a
    case Collect(true) => if s.mail.successed == [] then [] else [TakenFrom(s, s.mail.successed[0], true)]
    case Collect(false) => if s.mail.failed == [] then [] else [TakenFrom(s, s.mail.failed[0], false)]
    case _ => []
  }

  /** The outcomes that the collector takes during a run. */
  function TakenIn(c: Config, nfork: nat, acts: seq<Action>): seq<Outcome> {
    if acts == [] then []
    else
      var before := acts[..|acts| - 1];
      TakenIn(c, nfork, before) + TakenBy(Run(c, nfork, before), acts[|acts| - 1])
  }

  function Without(es: seq<Outcome>, p: Obj): seq<Outcome> {
    if es == [] then []
    else Without(es[..|es| - 1], p) + if es[|es| - 1].msg == p then [] else [es[|es| - 1]]
  }

  function Ended(fs: seq<Final>, verdict: bool): seq<Obj> {
    if fs == [] then []
    else Ended(fs[..|fs| - 1], verdict) + if fs[|fs| - 1].committed == verdict then [fs[|fs| - 1].obj] else []
  }

  function Books(s: State): Ledger {
    Ledger(s.pending, Ended(s.finals, true), Ended(s.finals, false))
  }

  lemma EndedSnoc(fs: seq<Final>, fin: Final, verdict: bool)
    ensures Ended(fs + [fin], verdict) == Ended(fs, verdict) + if fin.committed == verdict then [fin.obj] else []
  {
    assert (fs + [fin])[..|fs|] == fs;
  }

  lemma FinishBooks(s: State, o: Obj, n: nat, verdict: bool)
    requires o in s.info
    ensures var f := Finish(s, o, n, verdict);
      && f.pending == s.pending
      && Ended(f.finals, true) == (if verdict then Ended(s.finals, true) + [o] else Ended(s.finals, true))
      && Ended(f.finals, false) == if verdict then Ended(s.finals, false) else Ended(s.finals, false) + [o]
  {
    hide AcksOf;
    hide BlockedOf;
    hide EndUse;
    hide TokensOf;
    var fs := Finish(s, o, n, verdict).finals;
    EndedSnoc(s.finals, fs[|s.finals|], true);
    EndedSnoc(s.finals, fs[|s.finals|], false);
  }

  lemma TalliedBooks(s: State, t: Token, ok: bool)
    requires !Tallied(s, t, ok).panicked && !s.panicked
    ensures Enter(Books(s), TakenFrom(s, t, ok)) == Some(Books(Tallied(s, t, ok)))
  {
    hide AcksOf;
    hide BlockedOf;
    hide EndUse;
    hide TokensOf;
    hide Ended;
    var n := s.reg.tag2NSender[s.info[t.obj].tag];
    var s' := s.(mail := s.mail.(loc := s.mail.loc[t := Collected]));
    match Count(s.pending, t.obj, ok, n)
    case Wait(_) =>
    case Done(pending, verdict) =>
      FinishBooks(s'.(pending := pending), t.obj, n, verdict);
  }

  lemma StepBooks(c: Config, s: State, a: Action)
    requires !s.panicked && !Next(c, s, a).panicked
    ensures EnterAll(Books(s), TakenBy(s, a)) == Some(Books(Next(c, s, a)))
  {
    hide Tallied;
    hide Enter;
    hide Books;
    match a
    case Collect(ok) =>
      var q := if ok then s.mail.successed else s.mail.failed;
      if q != [] {
        var s' := if ok then s.(mail := s.mail.(successed := q[1..])) else s.(mail := s.mail.(failed := q[1..]));
        TalliedBooks(s', q[0], ok);
        BooksSame(s, s');
        assert [TakenFrom(s, q[0], ok)][..0] == [];
      }
    case _ => OthersQuiet(c, s, a);
  }

  lemma BooksSame(s: State, n: State)
    requires n.pending == s.pending && n.finals == s.finals
    ensures Books(n) == Books(s)
  {
  }

  lemma OthersQuiet(c: Config, s: State, a: Action)
    requires !a.Collect?
    ensures Books(Next(c, s, a)) == Books(s)
  {
    hide NextPc;
    hide NextReg;
    hide NextMail;
    hide Enlist;
    hide Reported;
    hide Ended;
  }

  lemma {:induction false} EnterJoined(l: Ledger, a: seq<Outcome>, b: seq<Outcome>)
    requires EnterAll(l, a).Some?
    ensures EnterAll(l, a + b) == EnterAll(EnterAll(l, a).value, b)
    decreases |b|
  {
    hide Enter;
    if b == [] {
      assert a + b == a;
    } else {
      EnterJoined(l, a, b[..|b| - 1]);
      assert (a + b)[..|a + b| - 1] == a + b[..|b| - 1];
    }
  }

  /** What the collector has booked after a run is what its outcomes make of empty books. */
  lemma {:induction false} BooksFromOutcomes(c: Config, nfork: nat, acts: seq<Action>)
    ensures EnterAll(NO_BOOKS, TakenIn(c, nfork, acts)) == Some(Books(Run(c, nfork, acts)))
    decreases |acts|
  {
    hide Next;
    hide Inv;
    hide Enter;
    hide Books;
    if acts == [] {
      InitBooks(nfork);
    } else {
      var before := acts[..|acts| - 1];
      BooksFromOutcomes(c, nfork, before);
      Unpanicked(c, nfork, before);
      Unpanicked(c, nfork, acts);
      StepBooks(c, Run(c, nfork, before), acts[|acts| - 1]);
      EnterJoined(NO_BOOKS, TakenIn(c, nfork, before), TakenBy(Run(c, nfork, before), acts[|acts| - 1]));
    }
  }

  lemma InitBooks(nfork: nat)
    ensures Books(Init(nfork)) == NO_BOOKS
  {
  }

  lemma Unpanicked(c: Config, nfork: nat, acts: seq<Action>)
    ensures !Run(c, nfork, acts).panicked
  {
    hide Registries;
    hide Messages;
    hide Sends;
    hide Tallies;
    hide Run;
    Always(c, nfork, acts);
  }

  function Others(os: seq<Obj>, p: Obj): seq<Obj> {
    if os == [] then [] else Others(os[..|os| - 1], p) + if os[|os| - 1] == p then [] else [os[|os| - 1]]
  }

  lemma OthersSnoc(os: seq<Obj>, o: Obj, p: Obj)
    ensures Others(os + [o], p) == Others(os, p) + if o == p then [] else [o]
  {
    assert (os + [o])[..|os|] == os;
  }

  /** The same counts and the same verdicts, in the same order, but for those of one object. */
  ghost predicate SameBut(l: Ledger, k: Ledger, p: Obj) {
    && (forall o :: o != p ==> Get(l.pending, o) == Get(k.pending, o))
    && Others(l.committed, p) == Others(k.committed, p) && Others(l.recycled, p) == Others(k.recycled, p)
  }

  lemma EnterOwn(l: Ledger, k: Ledger, e: Outcome)
    requires SameBut(l, k, e.msg) && Enter(l, e).Some?
    ensures SameBut(Enter(l, e).value, k, e.msg)
  {
    OthersSnoc(l.committed, e.msg, e.msg);
    OthersSnoc(l.recycled, e.msg, e.msg);
  }

  lemma CountBoth(a: map<Obj, PendingDiscard>, b: map<Obj, PendingDiscard>, o: Obj, ok: bool, n: nat, p: Obj)
    requires o != p && forall x :: x != p ==> Get(a, x) == Get(b, x)
    ensures match (Count(a, o, ok, n), Count(b, o, ok, n))
            case (Wait(a'), Wait(b')) => forall x :: x != p ==> Get(a', x) == Get(b', x)
            case (Done(a', v), Done(b', w)) => v == w && forall x :: x != p ==> Get(a', x) == Get(b', x)
            case _ => false
  {
    assert Get(a, o) == Get(b, o);
    match (Count(a, o, ok, n), Count(b, o, ok, n))
    case (Wait(a'), Wait(b')) =>
      forall x | x != p ensures Get(a', x) == Get(b', x) { assert Get(a, x) == Get(b, x); }
    case (Done(a', _), Done(b', _)) =>
      forall x | x != p ensures Get(a', x) == Get(b', x) { assert Get(a, x) == Get(b, x); }
    case _ =>
  }

  lemma EnterBoth(l: Ledger, k: Ledger, e: Outcome, p: Obj)
    requires SameBut(l, k, p) && e.msg != p && Enter(l, e).Some?
    ensures Enter(k, e).Some? && SameBut(Enter(l, e).value, Enter(k, e).value, p)
  {
    hide Count;
    hide Others;
    CountBoth(l.pending, k.pending, e.msg, e.isSuccessed, e.cntToDiscard.value, p);
    hide Get;
    OthersSnoc(l.committed, e.msg, p);
    OthersSnoc(l.recycled, e.msg, p);
    OthersSnoc(k.committed, e.msg, p);
    OthersSnoc(k.recycled, e.msg, p);
  }

  lemma {:induction false} LeavingOut(l: Ledger, es: seq<Outcome>, p: Obj)
    requires EnterAll(l, es).Some?
    ensures EnterAll(l, Without(es, p)).Some?
    ensures SameBut(EnterAll(l, es).value, EnterAll(l, Without(es, p)).value, p)
    decreases |es|
  {
    hide Enter;
    if es != [] {
      var before, e := es[..|es| - 1], es[|es| - 1];
      LeavingOut(l, before, p);
      var a, b := EnterAll(l, before).value, EnterAll(l, Without(before, p)).value;
      if e.msg == p {
        assert Without(es, p) == Without(before, p);
        EnterOwn(a, b, e);
      } else {
        EnterBoth(a, b, e, p);
        assert Without(es, p)[..|Without(before, p)|] == Without(before, p);
      }
    }
  }

  /** Leave out of a run all outcomes of one object: the counts and the verdicts of all others, and the order they were
      given in, are those of the run. So nothing that happens to a message shows in the books of another object, not
      even of one with the same id. */
  lemma ObjectsDoNotMeet(c: Config, nfork: nat, acts: seq<Action>, p: Obj)
    ensures var l := EnterAll(NO_BOOKS, Without(TakenIn(c, nfork, acts), p));
            l.Some? && SameBut(Books(Run(c, nfork, acts)), l.value, p)
  {
    hide Run;
    BooksFromOutcomes(c, nfork, acts);
    LeavingOut(NO_BOOKS, TakenIn(c, nfork, acts), p);
  }
}
