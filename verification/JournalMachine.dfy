/** The write-ahead journal of internal/controller/journal.go as a state machine: the dumper, and for each tag a data
    writer, an ids writer and a legacy loader, and one commit runner. The files are those of the go-journal library,
    taken by its documented contract: a data log and a set of ids, where a pass over the old data yields
    what has no committed id. */
module JournalMachine {
  type Tag = string
  type Body = string

  /** The part of a message that goes into the data log. */
  datatype Entry = Entry(tag: Tag, id: int, body: Body)

  /** A message handed to the commit channel. */
  datatype Commit = Commit(tag: Tag, id: int, extIds: seq<int>)

  /** The lengths of the channels. */
  datatype Config = Config(outLen: nat, commitLen: nat, childDataLen: nat, childIdLen: nat, dumpLen: nat)

  /** The files of one tag. `legacy` is the part of the old data that the running pass has yet to read, and `loaded` the
      ids that the pass read first. `ids` are all ids ever written: ids that expire are still in it. */
  datatype Files = Files(data: seq<Entry>, legacy: seq<Entry>, loading: bool, loaded: set<int>, ids: set<int>)

  datatype Attempt = Attempt(tag: Tag, id: int, ok: bool)

  /** The channels to and from the commit runner. The rest is bookkeeping: what was handed over to be committed, what
      the ids writers have written of it, what was shed, and each call of WriteId. */
  datatype CommitSide = CommitSide(
    commitChan: seq<Commit>,
    tag2JJCommitChanMap: map<Tag, seq<Commit>>,
    submitted: multiset<Commit>,
    written: seq<Commit>,
    shed: multiset<Commit>,
    attempts: seq<Attempt>)

  /** Bookkeeping of live copies: how often a message entered dumpChan, went out on outChan, was given back to the pool
      without going out. */
  datatype Book = Book(given: multiset<Entry>, passed: multiset<Entry>, recycled: multiset<Entry>)

  /** `writers` and `loaders` hold the messages that a data writer or a legacy loader has in hand. From `arrived` on it
      is bookkeeping: what the journal was ever given, and what it let go without a log entry (both write attempts
      failed, the dumper sent it on unlogged, the dumper dropped it). */
  datatype State = State(
    dumpChan: seq<Entry>,
    outChan: seq<Entry>,
    tag2JMap: map<Tag, Files>,
    tag2JJInchanMap: map<Tag, seq<Entry>>,
    writers: map<Tag, Entry>,
    loaders: map<Tag, Entry>,
    commits: CommitSide,
    arrived: set<Entry>,
    unwritten: set<Entry>,
    bypassed: set<Entry>,
    dropped: set<Entry>,
    book: Book)

  datatype Action =
    | Arrive(e: Entry)                        // the acceptor pipeline sends a message
    | Dump                                    // the dumper passes on a message
    | TakeData(tag: Tag)                      // a data writer takes a message
    | WriteData(tag: Tag, oks: seq<bool>)     // and writes it; `oks` are the results of its attempts
    | Consume                                 // the dispatcher takes a message
    | StartPass(tag: Tag, loaded: set<int>)   // a legacy pass begins: it reads the ids that have not expired
    | LoadNext(tag: Tag)                      // and then one entry after the other
    | PushBack(tag: Tag)                      // an uncommitted entry goes back to the dumper
    | Submit(c: Commit)                       // a message is to be committed
    | RunCommit(full: bool)                   // the commit runner passes it on; `full`: its channel filled up again
    | WriteIds(tag: Tag, oks: seq<bool>)      // an ids writer writes the ids of a message

  function Init(): State {
    State([], [], map[], map[], map[], map[], CommitSide([], map[], multiset{}, [], multiset{}, []), {}, {}, {}, {},
          Book(multiset{}, multiset{}, multiset{}))
  }

  /** createJournalRunner: a tag seen for the first time gets its journal and its channels. */
  function Create(s: State, tag: Tag): State {
    if tag in s.tag2JMap then s
    else s.(tag2JMap := s.tag2JMap[tag := Files([], [], false, {}, {})],
            tag2JJInchanMap := s.tag2JJInchanMap[tag := []],
            commits := s.commits.(tag2JJCommitChanMap := s.commits.tag2JJCommitChanMap[tag := []]))
  }

  function Gave(b: Book, e: Entry): Book {
    b.(given := b.given + multiset{e})
  }

  /** A message leaves: it goes out, or back to the pool. */
  function Left(b: Book, e: Entry, out: bool): Book {
    if out then b.(passed := b.passed + multiset{e}) else b.(recycled := b.recycled + multiset{e})
  }

  /** To the journal of its tag; if that is busy, past it; if the way out is busy too, nowhere. */
  function Dumped(c: Config, s: State, e: Entry): State
    requires e.tag in s.tag2JJInchanMap
  {
    var q := s.tag2JJInchanMap[e.tag];
    if |q| < c.childDataLen then s.(tag2JJInchanMap := s.tag2JJInchanMap[e.tag := q + [e]])
    else if |s.outChan| < c.outLen
    then s.(outChan := s.outChan + [e], bypassed := s.bypassed + {e}, book := Left(s.book, e, true))
    else s.(dropped := s.dropped + {e}, book := Left(s.book, e, false))
  }

  /** Whether one of the at most two attempts of a data writer succeeds. */
  predicate Succeeds(oks: seq<bool>) {
    (|oks| > 0 && oks[0]) || (|oks| > 1 && oks[1])
  }

  /** The message is logged if an attempt succeeds, and goes out if there is room. */
  function DataWritten(c: Config, s: State, tag: Tag, oks: seq<bool>): State
    requires tag in s.writers && tag in s.tag2JMap
  {
    var e, files := s.writers[tag], s.tag2JMap[tag];
    s.(writers := s.writers - {tag},
       tag2JMap := if Succeeds(oks) then s.tag2JMap[tag := files.(data := files.data + [e])] else s.tag2JMap,
       unwritten := if Succeeds(oks) then s.unwritten else s.unwritten + {e},
       outChan := if |s.outChan| < c.outLen then s.outChan + [e] else s.outChan,
       book := Left(s.book, e, |s.outChan| < c.outLen))
  }

  function NextLoaded(s: State, tag: Tag): State
    requires tag in s.tag2JMap
  {
    var files := s.tag2JMap[tag];
    if files.legacy == [] then s.(tag2JMap := s.tag2JMap[tag := files.(loading := false)])
    else
      var s' := s.(tag2JMap := s.tag2JMap[tag := files.(legacy := files.legacy[1..])]);
      if files.legacy[0].id in files.loaded then s' else s'.(loaders := s.loaders[tag := files.legacy[0]])
  }

  /** To the ids writer of the tag; if that is busy, to the end of the commit channel; if that has filled up, nowhere.
      */
  function Committing(c: Config, d: CommitSide, m: Commit, full: bool): CommitSide
    requires m.tag in d.tag2JJCommitChanMap
  {
    var q := d.tag2JJCommitChanMap[m.tag];
    if |q| < c.childIdLen then d.(tag2JJCommitChanMap := d.tag2JJCommitChanMap[m.tag := q + [m]])
    else if !full then d.(commitChan := d.commitChan + [m])
    else d.(shed := d.shed + multiset{m})
  }

  /** The ids that a message commits. */
  function IdsOf(m: Commit): seq<int> {
    [m.id] + m.extIds
  }

  /** One attempt for each id, in order; `oks` are their results. */
  function AttemptsFor(tag: Tag, ids: seq<int>, oks: seq<bool>): seq<Attempt> {
    if ids == [] then []
    else
      var k := |ids| - 1;
      AttemptsFor(tag, ids[..k], oks) + [Attempt(tag, ids[k], k < |oks| && oks[k])]
  }

  function WrittenIn(attempts: seq<Attempt>): set<int> {
    set i | 0 <= i < |attempts| && attempts[i].ok :: attempts[i].id
  }

  function IdsWritten(s: State, tag: Tag, oks: seq<bool>): State
    requires tag in s.commits.tag2JJCommitChanMap && tag in s.tag2JMap && s.commits.tag2JJCommitChanMap[tag] != []
  {
    var d, files := s.commits, s.tag2JMap[tag];
    var q := d.tag2JJCommitChanMap[tag];
    var attempts := AttemptsFor(tag, IdsOf(q[0]), oks);
    s.(tag2JMap := s.tag2JMap[tag := files.(ids := files.ids + WrittenIn(attempts))],
       commits := d.(tag2JJCommitChanMap := d.tag2JJCommitChanMap[tag := q[1..]],
                     written := d.written + [q[0]], attempts := d.attempts + attempts))
  }

  function Submitted(d: CommitSide, m: Commit): CommitSide {
    d.(commitChan := d.commitChan + [m], submitted := d.submitted + multiset{m})
  }

  function Popped(d: CommitSide): CommitSide {
    if d.commitChan == [] then d else d.(commitChan := d.commitChan[1..])
  }

  /** The step of an action; one that is not possible leaves the state as it is. */
  function Next(c: Config, s: State, a: Action): State {
    match a
    case Arrive(e) =>
      if |s.dumpChan| < c.dumpLen
      then s.(dumpChan := s.dumpChan + [e], arrived := s.arrived + {e}, book := Gave(s.book, e)) else s
    case Dump =>
      if s.dumpChan == [] then s
      else
        var s' := Create(s, s.dumpChan[0].tag);
        if s.dumpChan[0].tag in s'.tag2JJInchanMap
        then Dumped(c, s'.(dumpChan := s.dumpChan[1..]), s.dumpChan[0]) else s
    case TakeData(tag) =>
      if tag in s.tag2JJInchanMap && s.tag2JJInchanMap[tag] != [] && tag !in s.writers then
        var q := s.tag2JJInchanMap[tag];
        s.(tag2JJInchanMap := s.tag2JJInchanMap[tag := q[1..]], writers := s.writers[tag := q[0]])
      else s
    case WriteData(tag, oks) => if tag in s.writers && tag in s.tag2JMap then DataWritten(c, s, tag, oks) else s
    case Consume => if s.outChan == [] then s else s.(outChan := s.outChan[1..])
    case StartPass(tag, loaded) =>
      if tag in s.tag2JMap && !s.tag2JMap[tag].loading && tag !in s.loaders && loaded <= s.tag2JMap[tag].ids then
        var files := s.tag2JMap[tag];
        s.(tag2JMap := s.tag2JMap[tag := files.(data := [], legacy := files.legacy + files.data, loading := true,
                                                loaded := loaded)])
      else s
    case LoadNext(tag) =>
      if tag in s.tag2JMap && s.tag2JMap[tag].loading && tag !in s.loaders then NextLoaded(s, tag) else s
    case PushBack(tag) =>
      if tag in s.loaders && |s.dumpChan| < c.dumpLen then
        s.(dumpChan := s.dumpChan + [s.loaders[tag]], loaders := s.loaders - {tag},
           book := Gave(s.book, s.loaders[tag]))
      else s
    case Submit(m) => if |s.commits.commitChan| < c.commitLen then s.(commits := Submitted(s.commits, m)) else s
    case RunCommit(full) =>
      if s.commits.commitChan == [] then s
      else
        var m := s.commits.commitChan[0];
        var s' := Create(s, m.tag);
        if m.tag in s'.commits.tag2JJCommitChanMap
        then s'.(commits := Committing(c, Popped(s'.commits), m, full)) else s
    case WriteIds(tag, oks) =>
      if tag in s.commits.tag2JJCommitChanMap && tag in s.tag2JMap && s.commits.tag2JJCommitChanMap[tag] != []
      then IdsWritten(s, tag, oks) else s
  }

  function RunFrom(c: Config, s: State, acts: seq<Action>): State {
    if acts == [] then s else Next(c, RunFrom(c, s, acts[..|acts| - 1]), acts[|acts| - 1])
  }

  function Run(c: Config, acts: seq<Action>): State {
    RunFrom(c, Init(), acts)
  }

  // ---- What the journal owes to a message ----

  ghost predicate Committed(s: State, e: Entry) {
    e.tag in s.tag2JMap && e.id in s.tag2JMap[e.tag].ids
  }

  ghost predicate Logged(s: State, e: Entry) {
    e.tag in s.tag2JMap && (e in s.tag2JMap[e.tag].data || e in s.tag2JMap[e.tag].legacy)
  }

  /** On its way into the log: with a legacy loader, the dumper or the data writer. */
  ghost predicate OnItsWay(s: State, e: Entry) {
    || e in s.dumpChan
    || (e.tag in s.loaders && s.loaders[e.tag] == e)
    || (e.tag in s.tag2JJInchanMap && e in s.tag2JJInchanMap[e.tag])
    || (e.tag in s.writers && s.writers[e.tag] == e)
  }

  ghost predicate LetGo(s: State, e: Entry) {
    e in s.unwritten || e in s.bypassed || e in s.dropped
  }
}
