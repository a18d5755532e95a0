/** How long values come out, and what the size guesses of the encoder make of them. */
module MsgSize {
  import opened MsgPackFormat
  import opened MsgPack

  /** msgp.GuessSize. Every array counts as 512 bytes, whatever is in it. */
  function GuessSize(d: Doc): nat {
    match d
    case Atom(Nil) => 1
    case Atom(Bool(_)) => 1
    case Atom(Float32(_)) => 5
    case Atom(Str(s)) => 5 + |s|
    case Atom(Bin(s)) => 5 + |s|
    case Atom(_) => 9
    case ArrDoc(_) => 512
    case MapDoc(es) => 5 + GuessEntries(es)
  }

  function GuessEntries(es: seq<Entry>): nat {
    if es == [] then 0 else 5 + |es[0].key| + GuessSize(es[0].val) + GuessEntries(es[1..])
  }

  function GuessAll(ds: seq<Doc>): nat {
    if ds == [] then 0 else GuessSize(ds[0]) + GuessAll(ds[1..])
  }

  // The arrays that GuessSize meets on its way through the maps: how many, and how long they come out.

  function Arrays(d: Doc): nat {
    match d case Atom(_) => 0 case ArrDoc(_) => 1 case MapDoc(es) => ArraysIn(es)
  }

  function ArraysIn(es: seq<Entry>): nat {
    if es == [] then 0 else Arrays(es[0].val) + ArraysIn(es[1..])
  }

  function ArrayBytes(d: Doc): nat
    requires Fits(d)
  {
    match d case Atom(_) => 0 case ArrDoc(_) => |Encode(d)| case MapDoc(es) => ArrayBytesIn(es)
  }

  function ArrayBytesIn(es: seq<Entry>): nat
    requires FitEntries(es)
  {
    if es == [] then 0 else ArrayBytes(es[0].val) + ArrayBytesIn(es[1..])
  }

  /** What the guesses for everything else leave over: short headers and small numbers. */
  function Slack(d: Doc): nat
    requires Fits(d)
  {
    match d
    case Atom(v) => GuessSize(d) - |ScalarBytes(v)|
    case ArrDoc(_) => 0
    case MapDoc(es) => 5 - |Header(MapFamily, |es|)| + SlackIn(es)
  }

  function SlackIn(es: seq<Entry>): nat
    requires FitEntries(es)
  {
    if es == [] then 0 else 5 - |Header(StrFamily, |es[0].key|)| + Slack(es[0].val) + SlackIn(es[1..])
  }

  /** The account of a guess: exact for every document. */
  lemma {:induction false} GuessAccount(d: Doc)
    requires Fits(d)
    ensures GuessSize(d) + ArrayBytes(d) == |Encode(d)| + 512 * Arrays(d) + Slack(d)
    decreases d, 0
  {
    match d {
      case Atom(v) =>
      case ArrDoc(ds) =>
      case MapDoc(es) => EntriesAccount(es);
    }
  }

  lemma {:induction false} EntriesAccount(es: seq<Entry>)
    requires FitEntries(es)
    ensures GuessEntries(es) + ArrayBytesIn(es) == |EncodeEntries(es)| + 512 * ArraysIn(es) + SlackIn(es)
    decreases es, 1
  {
    if es != [] {
      GuessAccount(es[0].val);
      EntriesAccount(es[1..]);
    }
  }

  /** GuessSize is a bound iff the arrays together come out no longer than 512 bytes each on average, the slack of
      everything else allowing for more. */
  lemma SizeBoundIff(d: Doc)
    requires Fits(d)
    ensures |Encode(d)| <= GuessSize(d) <==> ArrayBytes(d) <= 512 * Arrays(d) + Slack(d)
    ensures d.ArrDoc? ==> (|Encode(d)| <= GuessSize(d) <==> |Header(ArrFamily, |d.ds|)| + |EncodeAll(d.ds)| <= 512)
  {
    GuessAccount(d);
  }

  /** No array on the way through the maps comes out longer than 512 bytes. */
  predicate ShortArrays(d: Doc)
    requires Fits(d)
  {
    match d
    case Atom(_) => true
    case ArrDoc(_) => |Encode(d)| <= 512
    case MapDoc(es) => ShortArraysIn(es)
  }

  predicate ShortArraysIn(es: seq<Entry>)
    requires FitEntries(es)
  {
    es == [] || (ShortArrays(es[0].val) && ShortArraysIn(es[1..]))
  }

  lemma {:induction false} ShortFit(d: Doc)
    requires Fits(d) && ShortArrays(d)
    ensures ArrayBytes(d) <= 512 * Arrays(d)
    decreases d, 0
  {
    if d.MapDoc? { ShortEntriesFit(d.es); }
  }

  lemma {:induction false} ShortEntriesFit(es: seq<Entry>)
    requires FitEntries(es) && ShortArraysIn(es)
    ensures ArrayBytesIn(es) <= 512 * ArraysIn(es)
    decreases es, 1
  {
    if es != [] {
      ShortFit(es[0].val);
      ShortEntriesFit(es[1..]);
    }
  }

  lemma SizeBound(d: Doc)
    requires Fits(d) && ShortArrays(d)
    ensures |Encode(d)| <= GuessSize(d)
  {
    ShortFit(d);
    SizeBoundIff(d);
  }

  lemma {:induction false} AllShortBound(ds: seq<Doc>)
    requires forall i :: 0 <= i < |ds| ==> Fits(ds[i]) && ShortArrays(ds[i])
    ensures |EncodeAll(ds)| <= GuessAll(ds)
    decreases |ds|
  {
    if ds != [] {
      SizeBound(ds[0]);
      AllShortBound(ds[1..]);
    }
  }

  /** Whether an array is short can be told from the guesses for its elements, and so from lengths. */
  lemma LightArray(ds: seq<Doc>)
    requires |ds| < MAX_LENGTH && forall i :: 0 <= i < |ds| ==> Fits(ds[i]) && ShortArrays(ds[i])
    requires 5 + GuessAll(ds) <= 512
    ensures ShortArrays(ArrDoc(ds))
  {
    AllShortBound(ds);
  }

  predicate Small(d: Doc) {
    d.Atom? && !d.v.Arr? && !d.v.Map? && !d.v.Str? && !d.v.Bin?
  }

  lemma {:induction false} SmallGuess(ds: seq<Doc>)
    requires forall i :: 0 <= i < |ds| ==> Small(ds[i])
    ensures GuessAll(ds) <= 9 * |ds|
    decreases |ds|
  {
    if ds != [] { SmallGuess(ds[1..]); }
  }

  /** Up to 56 numbers, booleans and nils are a short array. */
  lemma FewNumbers(ds: seq<Doc>)
    requires |ds| <= 56 && forall i :: 0 <= i < |ds| ==> Fits(ds[i]) && Small(ds[i])
    ensures ShortArrays(ArrDoc(ds))
  {
    SmallGuess(ds);
    LightArray(ds);
  }

  lemma {:induction false} ElementsTakeSpace(ds: seq<Doc>)
    requires forall i :: 0 <= i < |ds| ==> Fits(ds[i])
    ensures |EncodeAll(ds)| >= |ds|
    decreases |ds|
  {
    if ds != [] { ElementsTakeSpace(ds[1..]); }
  }
}
