/** A legacy pass: which entries a loader gives back to the dumper, whatever else the journal does in the meantime. */
module JournalPass {
  import opened JournalMachine

  /** What a pass over old data yields: the entries without a committed id, in order. */
  function Uncommitted(es: seq<Entry>, committed: set<int>): seq<Entry> {
    if es == [] then [] else Uncommitted(es[..|es| - 1], committed) + Unless(es[|es| - 1], committed)
  }

  function Unless(e: Entry, committed: set<int>): seq<Entry> {
    if e.id in committed then [] else [e]
  }

  lemma UncommittedLast(es: seq<Entry>, committed: set<int>)
    requires es != []
    ensures Uncommitted(es, committed) == Uncommitted(es[..|es| - 1], committed) + Unless(es[|es| - 1], committed)
  {
  }

  lemma {:induction false} UncommittedAll(es: seq<Entry>, committed: set<int>, e: Entry)
    ensures e in Uncommitted(es, committed) <==> e in es && e.id !in committed
    decreases |es|
  {
    if es != [] {
      UncommittedAll(es[..|es| - 1], committed, e);
      assert es == es[..|es| - 1] + [es[|es| - 1]];
    }
  }

  lemma {:induction false} UncommittedHead(es: seq<Entry>, committed: set<int>)
    requires es != []
    ensures Uncommitted(es, committed) == Unless(es[0], committed) + Uncommitted(es[1..], committed)
    decreases |es|
  {
    hide Uncommitted;
    hide Unless;
    var k := |es| - 1;
    UncommittedLast(es, committed);
    if k == 0 {
      assert es[..0] == [] && es[1..] == [];
      UncommittedNone(committed);
    } else {
      UncommittedHead(es[..k], committed);
      assert es[..k][1..] == es[1..k] && es[1..][..k - 1] == es[1..k];
      UncommittedLast(es[1..], committed);
      Regroup(Unless(es[0], committed), Uncommitted(es[1..k], committed), Unless(es[k], committed));
    }
  }

  lemma UncommittedNone(committed: set<int>)
    ensures Uncommitted([], committed) == []
  {
  }

  lemma Regroup(a: seq<Entry>, b: seq<Entry>, d: seq<Entry>)
    ensures (a + b) + d == a + (b + d)
  {
  }

  // ---- A pass in the state machine ----

  /** Still reading, or all read. */
  ghost predicate Reading(s: State, tag: Tag) {
    tag in s.tag2JMap && (s.tag2JMap[tag].loading || s.tag2JMap[tag].legacy == [])
  }

  /** What the loader of a tag has in hand, then what it has yet to read and give to the dumper. */
  ghost function Ahead(s: State, tag: Tag): seq<Entry>
    requires Reading(s, tag)
  {
    InHand(s, tag) + Uncommitted(s.tag2JMap[tag].legacy, s.tag2JMap[tag].loaded)
  }

  function InHand(s: State, tag: Tag): seq<Entry> {
    if tag in s.loaders then [s.loaders[tag]] else []
  }

  /** What a step gives to the dumper for the loader of a tag. */
  function GivenBy(c: Config, s: State, a: Action, tag: Tag): seq<Entry> {
    if a == PushBack(tag) && |s.dumpChan| < c.dumpLen then InHand(s, tag) else []
  }

  function GivenIn(c: Config, s: State, acts: seq<Action>, tag: Tag): seq<Entry> {
    if acts == [] then []
    else
      var front := acts[..|acts| - 1];
      GivenIn(c, s, front, tag) + GivenBy(c, RunFrom(c, s, front), acts[|acts| - 1], tag)
  }

  ghost predicate StartsPass(a: Action, tag: Tag) {
    a.StartPass? && a.tag == tag
  }

  ghost predicate SamePass(s: State, n: State, tag: Tag) {
    && tag in s.tag2JMap && tag in n.tag2JMap && InHand(n, tag) == InHand(s, tag)
    && n.tag2JMap[tag].legacy == s.tag2JMap[tag].legacy && n.tag2JMap[tag].loaded == s.tag2JMap[tag].loaded
    && n.tag2JMap[tag].loading == s.tag2JMap[tag].loading
  }

  lemma LoadStep(c: Config, s: State, tag: Tag)
    requires Reading(s, tag)
    ensures var n := Next(c, s, LoadNext(tag));
      Reading(n, tag) && n.tag2JMap[tag].loaded == s.tag2JMap[tag].loaded && Ahead(n, tag) == Ahead(s, tag)
  {
    hide Uncommitted;
    var files := s.tag2JMap[tag];
    if files.legacy != [] { UncommittedHead(files.legacy, files.loaded); }
  }

  lemma PushStep(c: Config, s: State, tag: Tag)
    requires Reading(s, tag)
    ensures var n := Next(c, s, PushBack(tag));
      Reading(n, tag) && n.tag2JMap[tag].loaded == s.tag2JMap[tag].loaded
      && GivenBy(c, s, PushBack(tag), tag) + Ahead(n, tag) == Ahead(s, tag)
  {
    hide Uncommitted;
  }

  /** The steps of all others leave the pass alone. */
  lemma OtherFile(c: Config, s: State, a: Action, tag: Tag)
    requires tag in s.tag2JMap && !StartsPass(a, tag) && (a.WriteData? || a.WriteIds? || a.StartPass?)
    ensures SamePass(s, Next(c, s, a), tag)
  {
    hide AttemptsFor;
    hide WrittenIn;
    hide Succeeds;
    hide Left;
  }

  lemma OtherLoad(c: Config, s: State, other: Tag, tag: Tag)
    requires tag in s.tag2JMap && other != tag
    ensures SamePass(s, Next(c, s, LoadNext(other)), tag)
  {
  }

  lemma OtherMove(c: Config, s: State, a: Action, tag: Tag)
    requires tag in s.tag2JMap && (a.Arrive? || a.TakeData? || a.Consume? || a.Submit? || (a.PushBack? && a.tag != tag))
    ensures SamePass(s, Next(c, s, a), tag)
  {
  }

  lemma OtherDump(c: Config, s: State, tag: Tag)
    requires tag in s.tag2JMap
    ensures SamePass(s, Next(c, s, Dump), tag)
  {
    if s.dumpChan != [] { SentSame(s, s.dumpChan[0].tag, tag); }
  }

  lemma SentSame(s: State, t: Tag, tag: Tag)
    requires tag in s.tag2JMap
    ensures SamePass(s, Create(s, t), tag)
  {
  }

  lemma OtherCommit(c: Config, s: State, full: bool, tag: Tag)
    requires tag in s.tag2JMap
    ensures SamePass(s, Next(c, s, RunCommit(full)), tag)
  {
    hide Committing;
    hide Popped;
    if s.commits.commitChan != [] { SentSame(s, s.commits.commitChan[0].tag, tag); }
    hide Create;
  }

  lemma PassStep(c: Config, s: State, a: Action, tag: Tag)
    requires Reading(s, tag) && !StartsPass(a, tag)
    ensures var n := Next(c, s, a);
      Reading(n, tag) && n.tag2JMap[tag].loaded == s.tag2JMap[tag].loaded
      && GivenBy(c, s, a, tag) + Ahead(n, tag) == Ahead(s, tag)
  {
    hide Next;
    hide Uncommitted;
    if a == LoadNext(tag) {
      LoadStep(c, s, tag);
    } else if a == PushBack(tag) {
      PushStep(c, s, tag);
    } else {
      assert GivenBy(c, s, a, tag) == [];
      if a.Dump? {
        OtherDump(c, s, tag);
      } else if a.RunCommit? {
        OtherCommit(c, s, a.full, tag);
      } else if a.LoadNext? {
        OtherLoad(c, s, a.tag, tag);
      } else if a.WriteData? || a.WriteIds? || a.StartPass? {
        OtherFile(c, s, a, tag);
      } else {
        OtherMove(c, s, a, tag);
      }
    }
  }

  /** Until the next pass of the tag begins, whatever all the runners do: what its loader has given to the dumper, then
      what is ahead of it, is what was ahead of it in the beginning. So a pass that has come to its end has given the
      dumper exactly the entries without a committed id, each once and in order. */
  lemma PassIsExact(c: Config, s: State, acts: seq<Action>, tag: Tag)
    requires tag in s.tag2JMap && s.tag2JMap[tag].loading
    requires forall a :: a in acts ==> !StartsPass(a, tag)
    ensures var n := RunFrom(c, s, acts);
      && Reading(n, tag) && GivenIn(c, s, acts, tag) + Ahead(n, tag) == Ahead(s, tag)
      && (!n.tag2JMap[tag].loading && tag !in n.loaders ==>
            GivenIn(c, s, acts, tag) == InHand(s, tag) + Uncommitted(s.tag2JMap[tag].legacy, s.tag2JMap[tag].loaded))
  {
    PassSoFar(c, s, acts, tag);
  }

  lemma {:induction false} PassSoFar(c: Config, s: State, acts: seq<Action>, tag: Tag)
    requires Reading(s, tag)
    requires forall a :: a in acts ==> !StartsPass(a, tag)
    ensures var n := RunFrom(c, s, acts); Reading(n, tag) && GivenIn(c, s, acts, tag) + Ahead(n, tag) == Ahead(s, tag)
    decreases |acts|
  {
    hide Next;
    hide Reading;
    hide StartsPass;
    hide GivenBy;
    hide Ahead;
    if acts != [] {
      var front, last := acts[..|acts| - 1], acts[|acts| - 1];
      PassSoFar(c, s, front, tag);
      var s' := RunFrom(c, s, front);
      PassStep(c, s', last, tag);
      Regroup(GivenIn(c, s, front, tag), GivenBy(c, s', last, tag), Ahead(Next(c, s', last), tag));
    }
  }
}
