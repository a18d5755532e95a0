/** FluentMsg and FluentBatchMsg of library/data_gen.go: marshalling appends to a buffer in loops, and
    unmarshalling overwrites the fields of a receiver that may still hold an older message. */
module FluentMsgCodec {
  import opened MsgPackFormat
  import opened MsgPack
  import opened MsgSize

  /** The contents of a message. A nil map or slice of the source is the empty one here. */
  datatype Msg = Msg(tag: Bytes, message: map<Bytes, Val>, id: int64, extIds: seq<int64>)

  const TAG: Bytes := [0x54, 0x61, 0x67]
  const MESSAGE: Bytes := [0x4d, 0x65, 0x73, 0x73, 0x61, 0x67, 0x65]
  const ID_KEY: Bytes := [0x49, 0x64]
  const EXT_IDS: Bytes := [0x45, 0x78, 0x74, 0x49, 0x64, 0x73]

  // ---- Encoding ----

  function EncodeIds(ids: seq<int64>): Bytes {
    if ids == [] then [] else IntBytes(ids[0]) + EncodeIds(ids[1..])
  }

  predicate FitsMsg(tag: Bytes, es: seq<Entry>, ext: seq<int64>) {
    |tag| < MAX_LENGTH && |es| < MAX_LENGTH && FitEntries(es) && |ext| < MAX_LENGTH
  }

  /** The wire form of a message whose map was walked in the order of `es`. */
  function EncodeMsg(tag: Bytes, es: seq<Entry>, id: int64, ext: seq<int64>): Bytes
    requires FitsMsg(tag, es, ext)
  {
    EncodeHead(tag, es, id, |ext|) + EncodeIds(ext)
  }

  /** Everything up to the array of ids. */
  function EncodeHead(tag: Bytes, es: seq<Entry>, id: int64, n: nat): Bytes
    requires |tag| < MAX_LENGTH && |es| < MAX_LENGTH && FitEntries(es) && n < MAX_LENGTH
  {
    [0x84, 0xa3, 0x54, 0x61, 0x67] + RawBytes(StrFamily, tag)
    + [0xa7, 0x4d, 0x65, 0x73, 0x73, 0x61, 0x67, 0x65] + Header(MapFamily, |es|) + EncodeEntries(es)
    + [0xa2, 0x49, 0x64] + IntBytes(id)
    + [0xa6, 0x45, 0x78, 0x74, 0x49, 0x64, 0x73] + Header(ArrFamily, n)
  }

  // ---- Decoding ----

  /** A map key, which may be a str or a bin. */
  function ReadKey(b: Bytes): (p: Parse<Bytes>)
    ensures p.Done? ==> |p.rest| < |b|
  {
    match ReadRaw(StrFamily, b)
    case Done(s, rest) => Done(s, rest)
    case Fail => ReadRaw(BinFamily, b)
  }

  function ReadInt64(b: Bytes): (p: Parse<int64>)
    ensures p.Done? ==> |p.rest| < |b|
  {
    match ReadNumber(b)
    case Fail => Fail
    case Done(Signed(i), rest) =>
      if -0x8000_0000_0000_0000 <= i < 0x8000_0000_0000_0000 then Done(i as int64, rest) else Fail
    case Done(Unsigned(u), rest) => if u < 0x8000_0000_0000_0000 then Done(u as int64, rest) else Fail
  }

  function ReadIds(n: nat, b: Bytes, ids: seq<int64>): (p: Parse<seq<int64>>)
    ensures p.Done? ==> |p.rest| <= |b| && |p.value| == |ids| + n
  {
    if n == 0 then Done(ids, b)
    else match ReadInt64(b)
      case Fail => Fail
      case Done(i, rest) => ReadIds(n - 1, rest, ids + [i])
  }

  function ReadIdArray(b: Bytes): (p: Parse<seq<int64>>)
    ensures p.Done? ==> |p.rest| < |b|
  {
    match ReadHeader(ArrFamily, b) case Fail => Fail case Done(n, rest) => ReadIds(n, rest, [])
  }

  function ReadMessage(b: Bytes): (p: Parse<map<Bytes, Val>>)
    ensures p.Done? ==> |p.rest| < |b|
  {
    match ReadHeader(MapFamily, b) case Fail => Fail case Done(n, rest) => ReadEntries(n, rest, map[])
  }

  /** One field of the wire map, written over the receiver `m`. Unknown fields are skipped. */
  function ReadField(key: Bytes, b: Bytes, m: Msg): (p: Parse<Msg>)
    ensures p.Done? ==> |p.rest| < |b|
  {
    if key == TAG then
      match ReadRaw(StrFamily, b) case Fail => Fail case Done(s, rest) => Done(m.(tag := s), rest)
    else if key == MESSAGE then
      match ReadMessage(b) case Fail => Fail case Done(es, rest) => Done(m.(message := es), rest)
    else if key == ID_KEY then
      match ReadInt64(b) case Fail => Fail case Done(i, rest) => Done(m.(id := i), rest)
    else if key == EXT_IDS then
      match ReadIdArray(b) case Fail => Fail case Done(ids, rest) => Done(m.(extIds := ids), rest)
    else
      match ReadVal(b) case Fail => Fail case Done(_, rest) => Done(m, rest)
  }

  function ReadNext(b: Bytes, m: Msg): (p: Parse<Msg>)
    ensures p.Done? ==> |p.rest| < |b|
  {
    match ReadKey(b) case Fail => Fail case Done(key, rest) => ReadField(key, rest, m)
  }

  function ReadFields(n: nat, b: Bytes, m: Msg): (p: Parse<Msg>)
    ensures p.Done? ==> |p.rest| <= |b|
  {
    if n == 0 then Done(m, b)
    else match ReadNext(b, m)
      case Fail => Fail
      case Done(m', rest) => ReadFields(n - 1, rest, m')
  }

  function ReadMsg(b: Bytes, m: Msg): Parse<Msg> {
    match ReadHeader(MapFamily, b) case Fail => Fail case Done(n, rest) => ReadFields(n, rest, m)
  }

  // ---- Round trip ----

  lemma {:induction false} IdsRoundTrip(ids: seq<int64>, before: seq<int64>, rest: Bytes)
    ensures ReadIds(|ids|, EncodeIds(ids) + rest, before) == Done(before + ids, rest)
  {
    if ids == [] {
      assert EncodeIds(ids) + rest == rest;
      assert before + [] == before;
    } else {
      var behind := EncodeIds(ids[1..]) + rest;
      IdsRoundTrip(ids[1..], before + [ids[0]], rest);
      ReadsInt(ids[0], behind);
      Regroup(IntBytes(ids[0]), EncodeIds(ids[1..]), [], rest);
      assert (before + [ids[0]]) + ids[1..] == before + ids;
    }
  }

  lemma ReadsShortKey(key: Bytes, rest: Bytes)
    requires |key| < 32
    ensures ReadKey([(0xa0 + |key|) as byte] + key + rest) == Done(key, rest)
  {
    assert RawBytes(StrFamily, key) == [(0xa0 + |key|) as byte] + key;
    ReadsRaw(StrFamily, key, rest);
  }

  lemma ReadFieldsStep(n: nat, b: Bytes, key: Bytes, mid: Bytes, m: Msg, m': Msg, rest: Bytes)
    requires ReadKey(b) == Done(key, mid) && ReadField(key, mid, m) == Done(m', rest)
    ensures ReadFields(n + 1, b, m) == ReadFields(n, rest, m')
  {
  }

  lemma FieldTag(n: nat, tag: Bytes, m: Msg, rest: Bytes)
    requires |tag| < MAX_LENGTH
    ensures ReadFields(n + 1, [0xa3, 0x54, 0x61, 0x67] + (RawBytes(StrFamily, tag) + rest), m)
      == ReadFields(n, rest, m.(tag := tag))
  {
    var mid := RawBytes(StrFamily, tag) + rest;
    assert [0xa3] + TAG + mid == [0xa3, 0x54, 0x61, 0x67] + mid;
    ReadsShortKey(TAG, mid);
    ReadsRaw(StrFamily, tag, rest);
    ReadFieldsStep(n, [0xa3, 0x54, 0x61, 0x67] + mid, TAG, mid, m, m.(tag := tag), rest);
  }

  lemma FieldMessage(n: nat, es: seq<Entry>, m: Msg, rest: Bytes)
    requires |es| < MAX_LENGTH && FitEntries(es)
    ensures ReadFields(n + 1, [0xa7, 0x4d, 0x65, 0x73, 0x73, 0x61, 0x67, 0x65]
                              + (Header(MapFamily, |es|) + (EncodeEntries(es) + rest)), m)
      == ReadFields(n, rest, m.(message := SettleMap(Overlay(map[], es))))
  {
    var mid := Header(MapFamily, |es|) + (EncodeEntries(es) + rest);
    var b := [0xa7, 0x4d, 0x65, 0x73, 0x73, 0x61, 0x67, 0x65] + mid;
    assert [0xa7] + MESSAGE + mid == b;
    ReadsShortKey(MESSAGE, mid);
    ReadsHeader(MapFamily, |es|, EncodeEntries(es) + rest);
    RoundTripEntries(es, map[], rest);
    assert SettleMap(map[]) == map[];
    ReadFieldsStep(n, b, MESSAGE, mid, m, m.(message := SettleMap(Overlay(map[], es))), rest);
  }

  lemma FieldId(n: nat, id: int64, m: Msg, rest: Bytes)
    ensures ReadFields(n + 1, [0xa2, 0x49, 0x64] + (IntBytes(id) + rest), m) == ReadFields(n, rest, m.(id := id))
  {
    var mid := IntBytes(id) + rest;
    assert [0xa2] + ID_KEY + mid == [0xa2, 0x49, 0x64] + mid;
    ReadsShortKey(ID_KEY, mid);
    ReadsInt(id, rest);
    ReadFieldsStep(n, [0xa2, 0x49, 0x64] + mid, ID_KEY, mid, m, m.(id := id), rest);
  }

  lemma FieldExtIds(n: nat, ext: seq<int64>, m: Msg, rest: Bytes)
    requires |ext| < MAX_LENGTH
    ensures ReadFields(n + 1, [0xa6, 0x45, 0x78, 0x74, 0x49, 0x64, 0x73]
                              + (Header(ArrFamily, |ext|) + (EncodeIds(ext) + rest)), m)
      == ReadFields(n, rest, m.(extIds := ext))
  {
    var mid := Header(ArrFamily, |ext|) + (EncodeIds(ext) + rest);
    var b := [0xa6, 0x45, 0x78, 0x74, 0x49, 0x64, 0x73] + mid;
    assert [0xa6] + EXT_IDS + mid == b;
    ReadsShortKey(EXT_IDS, mid);
    ReadsHeader(ArrFamily, |ext|, EncodeIds(ext) + rest);
    IdsRoundTrip(ext, [], rest);
    assert [] + ext == ext;
    ReadFieldsStep(n, b, EXT_IDS, mid, m, m.(extIds := ext), rest);
  }

  /** Unmarshalling what MarshalMsg wrote, followed by anything, restores every field of the message
      and leaves exactly the rest, whatever the receiver held before and whatever order the map was
      walked in. */
  lemma MsgRoundTrip(tag: Bytes, es: seq<Entry>, id: int64, ext: seq<int64>, dirty: Msg, rest: Bytes)
    requires FitsMsg(tag, es, ext)
    ensures ReadMsg(EncodeMsg(tag, es, id, ext) + rest, dirty)
      == Done(Msg(tag, SettleMap(Overlay(map[], es)), id, ext), rest)
  {
    var m := SettleMap(Overlay(map[], es));
    var b3 := [0xa6, 0x45, 0x78, 0x74, 0x49, 0x64, 0x73] + (Header(ArrFamily, |ext|) + (EncodeIds(ext) + rest));
    var b2 := [0xa2, 0x49, 0x64] + (IntBytes(id) + b3);
    var b1 := [0xa7, 0x4d, 0x65, 0x73, 0x73, 0x61, 0x67, 0x65]
              + (Header(MapFamily, |es|) + (EncodeEntries(es) + b2));
    var b0 := [0xa3, 0x54, 0x61, 0x67] + (RawBytes(StrFamily, tag) + b1);
    EncodeMsgNested(tag, es, id, ext, rest, b3, b2, b1, b0);
    ReadsHeader(MapFamily, 4, b0);
    assert Header(MapFamily, 4) == [0x84];
    FieldTag(3, tag, dirty, b1);
    FieldMessage(2, es, dirty.(tag := tag), b2);
    FieldId(1, id, dirty.(tag := tag, message := m), b3);
    FieldExtIds(0, ext, dirty.(tag := tag, message := m, id := id), rest);
  }

  lemma EncodeMsgNested(tag: Bytes, es: seq<Entry>, id: int64, ext: seq<int64>, rest: Bytes,
                        b3: Bytes, b2: Bytes, b1: Bytes, b0: Bytes)
    requires FitsMsg(tag, es, ext)
    requires b3 == [0xa6, 0x45, 0x78, 0x74, 0x49, 0x64, 0x73] + (Header(ArrFamily, |ext|) + (EncodeIds(ext) + rest))
    requires b2 == [0xa2, 0x49, 0x64] + (IntBytes(id) + b3)
    requires b1 == [0xa7, 0x4d, 0x65, 0x73, 0x73, 0x61, 0x67, 0x65]
                   + (Header(MapFamily, |es|) + (EncodeEntries(es) + b2))
    requires b0 == [0xa3, 0x54, 0x61, 0x67] + (RawBytes(StrFamily, tag) + b1)
    ensures EncodeMsg(tag, es, id, ext) + rest == [0x84] + b0
  {
    var a := [0x84, 0xa3, 0x54, 0x61, 0x67] + RawBytes(StrFamily, tag);
    var c := a + [0xa7, 0x4d, 0x65, 0x73, 0x73, 0x61, 0x67, 0x65] + Header(MapFamily, |es|) + EncodeEntries(es);
    var d := c + [0xa2, 0x49, 0x64] + IntBytes(id);
    Regroup(d + [0xa6, 0x45, 0x78, 0x74, 0x49, 0x64, 0x73], Header(ArrFamily, |ext|), EncodeIds(ext), rest);
    Regroup(d, [0xa6, 0x45, 0x78, 0x74, 0x49, 0x64, 0x73], [], Header(ArrFamily, |ext|) + (EncodeIds(ext) + rest));
    assert EncodeMsg(tag, es, id, ext) + rest == d + b3;
    Regroup(c, [0xa2, 0x49, 0x64], IntBytes(id), b3);
    assert d + b3 == c + b2;
    Regroup(a + [0xa7, 0x4d, 0x65, 0x73, 0x73, 0x61, 0x67, 0x65], Header(MapFamily, |es|), EncodeEntries(es), b2);
    Regroup(a, [0xa7, 0x4d, 0x65, 0x73, 0x73, 0x61, 0x67, 0x65], [],
            Header(MapFamily, |es|) + (EncodeEntries(es) + b2));
    assert c + b2 == a + b1;
    assert [0x84, 0xa3, 0x54, 0x61, 0x67] == [0x84] + [0xa3, 0x54, 0x61, 0x67];
    Regroup([0x84], [0xa3, 0x54, 0x61, 0x67], RawBytes(StrFamily, tag), b1);
  }

  /** The message itself survives exactly when its map holds no small unsigned number. */
  lemma MsgRoundTripIff(tag: Bytes, es: seq<Entry>, id: int64, ext: seq<int64>, dirty: Msg, rest: Bytes)
    requires FitsMsg(tag, es, ext)
    ensures ReadMsg(EncodeMsg(tag, es, id, ext) + rest, dirty) == Done(Msg(tag, Overlay(map[], es), id, ext), rest)
      <==> NoSmallUint(Map(Overlay(map[], es)))
  {
    MsgRoundTrip(tag, es, id, ext, dirty, rest);
    SettlesIff(Map(Overlay(map[], es)));
  }

  lemma MsgReadsAppended(b: Bytes, tag: Bytes, es: seq<Entry>, id: int64, ext: seq<int64>)
    requires FitsMsg(tag, es, ext)
    ensures forall dirty :: ReadMsg((b + EncodeMsg(tag, es, id, ext))[|b|..], dirty)
                         == Done(Msg(tag, SettleMap(Overlay(map[], es)), id, ext), [])
  {
    forall dirty
      ensures ReadMsg((b + EncodeMsg(tag, es, id, ext))[|b|..], dirty)
           == Done(Msg(tag, SettleMap(Overlay(map[], es)), id, ext), [])
    {
      MsgRoundTrip(tag, es, id, ext, dirty, []);
      assert (b + EncodeMsg(tag, es, id, ext))[|b|..] == EncodeMsg(tag, es, id, ext) + [];
    }
  }

  // ---- Msgsize ----

  function Msgsize(tag: Bytes, es: seq<Entry>, ext: seq<int64>): nat {
    (1 + 4 + 5 + |tag| + 8 + 5) + GuessEntries(es) + (3 + 9 + 7 + 5 + |ext| * 9)
  }

  /** What Msgsize leaves over for everything but the arrays of the message: headers and numbers shorter than guessed.
      */
  function MsgSlack(tag: Bytes, es: seq<Entry>, id: int64, ext: seq<int64>): int
    requires FitsMsg(tag, es, ext)
  {
    (5 - |Header(StrFamily, |tag|)|) + (5 - |Header(MapFamily, |es|)|) + SlackIn(es) + (9 - |IntBytes(id)|)
    + (5 - |Header(ArrFamily, |ext|)|) + (9 * |ext| - |EncodeIds(ext)|)
  }

  lemma {:induction false} IdsTakeSpace(ids: seq<int64>)
    ensures |ids| <= |EncodeIds(ids)| <= 9 * |ids|
    decreases |ids|
  {
    if ids != [] { IdsTakeSpace(ids[1..]); }
  }

  /** Msgsize bounds the output of MarshalMsg, for any tag, message and ids, iff the arrays in the message come out no
      longer than 512 bytes each on average, the slack of everything else allowing for more. */
  lemma MsgsizeBoundIff(tag: Bytes, es: seq<Entry>, id: int64, ext: seq<int64>)
    requires FitsMsg(tag, es, ext)
    ensures MsgSlack(tag, es, id, ext) >= 0
    ensures |EncodeMsg(tag, es, id, ext)| <= Msgsize(tag, es, ext)
       <==> ArrayBytesIn(es) <= 512 * ArraysIn(es) + MsgSlack(tag, es, id, ext)
  {
    EntriesAccount(es);
    IdsTakeSpace(ext);
  }

  /** It does if each array comes out no longer than 512 bytes; so with no arrays, or up to 56 numbers in each. */
  lemma MsgsizeBound(tag: Bytes, es: seq<Entry>, id: int64, ext: seq<int64>)
    requires FitsMsg(tag, es, ext) && ShortArraysIn(es)
    ensures |EncodeMsg(tag, es, id, ext)| <= Msgsize(tag, es, ext)
  {
    ShortEntriesFit(es);
    MsgsizeBoundIff(tag, es, id, ext);
  }

  /** A message with one field, an array: Msgsize falls short iff the array exceeds 512 bytes and the slack of the other
      fields, as it does with 536 elements or more and eight for each further id. */
  lemma MsgsizeMissesArrays(tag: Bytes, k: Bytes, ds: seq<Doc>, id: int64, ext: seq<int64>)
    requires |tag| < MAX_LENGTH && |k| < MAX_LENGTH && |ext| < MAX_LENGTH && Fits(ArrDoc(ds))
    ensures var es := [Entry(k, ArrDoc(ds))];
      && (|EncodeMsg(tag, es, id, ext)| > Msgsize(tag, es, ext)
          <==> |Encode(ArrDoc(ds))| > 512 + MsgSlack(tag, es, id, ext))
      && (|ds| >= 536 + 8 * |ext| ==> |EncodeMsg(tag, es, id, ext)| > Msgsize(tag, es, ext))
  {
    var es := [Entry(k, ArrDoc(ds))];
    assert es[1..] == [] && es[0].val == ArrDoc(ds);
    assert ArrayBytesIn(es) == |Encode(ArrDoc(ds))| && ArraysIn(es) == 1;
    assert SlackIn(es) == 5 - |Header(StrFamily, |k|)|;
    MsgsizeBoundIff(tag, es, id, ext);
    IdsTakeSpace(ext);
    ElementsTakeSpace(ds);
  }

  /** FluentBatchMsg counts its own header and guesses for each item. */
  function BatchMsgsize(ds: seq<Doc>): nat {
    5 + GuessAll(ds)
  }

  lemma BatchMsgsizeBound(ds: seq<Doc>)
    requires Fits(ArrDoc(ds)) && forall i :: 0 <= i < |ds| ==> ShortArrays(ds[i])
    ensures |Encode(ArrDoc(ds))| <= BatchMsgsize(ds)
  {
    AllShortBound(ds);
  }

  // ---- The objects ----

  class FluentMsg {
    var Tag: Bytes
    var Message: map<Bytes, Val>
    var ID: int64
    // The slice ExtIds: a backing array and the length in use.
    var extIds: array<int64>
    var nExt: nat

    ghost predicate Valid()
      reads this
    {
      nExt <= extIds.Length
    }

    ghost function View(): Msg
      requires Valid()
      reads this, extIds
    {
      Msg(Tag, Message, ID, extIds[..nExt])
    }

    method MarshalMsg(b: Bytes) returns (o: Bytes, ghost es: seq<Entry>)
      requires Valid() && FitsVal(Map(Message)) && |Tag| < MAX_LENGTH && nExt < MAX_LENGTH
      ensures FitsMsg(Tag, es, extIds[..nExt]) && Overlay(map[], es) == Message
      ensures o == b + EncodeMsg(Tag, es, ID, extIds[..nExt])
      ensures b <= o && forall dirty ::
                ReadMsg(o[|b|..], dirty) == Done(Msg(Tag, SettleMap(Message), ID, extIds[..nExt]), [])
    {
      o, es := MarshalHead(b);
      ghost var front := EncodeHead(Tag, es, ID, nExt);
      for i := 0 to nExt
        invariant o == b + (front + EncodeIds(extIds[..i]))
      {
        EncodeIdsSnoc(extIds[..i], extIds[i]);
        assert extIds[..i + 1] == extIds[..i] + [extIds[i]];
        Regroup(front, EncodeIds(extIds[..i]), [], IntBytes(extIds[i]));
        Regroup(b, front + EncodeIds(extIds[..i]), [], IntBytes(extIds[i]));
        o := o + IntBytes(extIds[i]);
      }
      MsgReadsAppended(b, Tag, es, ID, extIds[..nExt]);
    }

    method MarshalHead(b: Bytes) returns (o: Bytes, ghost es: seq<Entry>)
      requires FitsVal(Map(Message)) && |Tag| < MAX_LENGTH && nExt < MAX_LENGTH
      ensures FitEntries(es) && |es| == |Message| && Overlay(map[], es) == Message
      ensures o == b + EncodeHead(Tag, es, ID, nExt)
    {
      o := b + [0x84, 0xa3, 0x54, 0x61, 0x67];
      o := o + RawBytes(StrFamily, Tag);
      o := o + [0xa7, 0x4d, 0x65, 0x73, 0x73, 0x61, 0x67, 0x65];
      o := o + Header(MapFamily, |Message|);
      o, es := AppendEntries(o, Message);
      o := o + [0xa2, 0x49, 0x64];
      o := o + IntBytes(ID);
      o := o + [0xa6, 0x45, 0x78, 0x74, 0x49, 0x64, 0x73];
      o := o + Header(ArrFamily, nExt);
      NinePieces(b, [0x84, 0xa3, 0x54, 0x61, 0x67], RawBytes(StrFamily, Tag),
                 [0xa7, 0x4d, 0x65, 0x73, 0x73, 0x61, 0x67, 0x65], Header(MapFamily, |es|), EncodeEntries(es),
                 [0xa2, 0x49, 0x64], IntBytes(ID), [0xa6, 0x45, 0x78, 0x74, 0x49, 0x64, 0x73], Header(ArrFamily, nExt));
    }

    /** Overwrites the receiver field by field. On an error the receiver is left partly overwritten. */
    method UnmarshalMsg(bts: Bytes) returns (ok: bool, o: Bytes)
      requires Valid()
      modifies this, extIds
      ensures Valid()
      ensures ok <==> ReadMsg(bts, old(View())).Done?
      ensures ok ==> ReadMsg(bts, old(View())) == Done(View(), o)
    {
      hide ReadNext;
      ok, o := false, bts;
      var rest := bts;
      var p := ReadHeader(MapFamily, rest);
      if p.Fail? { return; }
      var n := p.value;
      rest := p.rest;
      while n > 0
        invariant Valid() && (extIds == old(extIds) || fresh(extIds))
        invariant ReadMsg(bts, old(View())) == ReadFields(n, rest, View())
      {
        n := n - 1;
        var field: bool;
        field, rest := UnmarshalNext(rest);
        if !field { return; }
      }
      ok, o := true, rest;
    }

    method UnmarshalNext(bts: Bytes) returns (ok: bool, o: Bytes)
      requires Valid()
      modifies this, extIds
      ensures Valid() && (extIds == old(extIds) || fresh(extIds))
      ensures ok <==> ReadNext(bts, old(View())).Done?
      ensures ok ==> ReadNext(bts, old(View())) == Done(View(), o)
    {
      var key := ReadKey(bts);
      if key.Fail? { return false, bts; }
      ok, o := UnmarshalField(key.value, key.rest);
    }

    method UnmarshalField(key: Bytes, bts: Bytes) returns (ok: bool, o: Bytes)
      requires Valid()
      modifies this, extIds
      ensures Valid() && (extIds == old(extIds) || fresh(extIds))
      ensures ok <==> ReadField(key, bts, old(View())).Done?
      ensures ok ==> ReadField(key, bts, old(View())) == Done(View(), o)
    {
      ok, o := false, bts;
      if key == TAG {
        var s := ReadRaw(StrFamily, bts);
        if s.Fail? { return; }
        Tag, o := s.value, s.rest;
      } else if key == MESSAGE {
        ok, o := UnmarshalMap(bts);
        return;
      } else if key == ID_KEY {
        var i := ReadInt64(bts);
        if i.Fail? { return; }
        ID, o := i.value, i.rest;
      } else if key == EXT_IDS {
        ok, o := UnmarshalExtIds(bts);
        return;
      } else {
        var v := ReadVal(bts);
        if v.Fail? { return; }
        o := v.rest;
      }
      ok := true;
    }

    /** Empties the old map and fills it again. */
    method UnmarshalMap(bts: Bytes) returns (ok: bool, o: Bytes)
      modifies this`Message
      ensures ok <==> ReadMessage(bts).Done?
      ensures ok ==> ReadMessage(bts) == Done(Message, o)
    {
      ok, o := false, bts;
      var p := ReadHeader(MapFamily, bts);
      if p.Fail? { return; }
      var n, rest := p.value, p.rest;
      var todo := Message.Keys;
      while todo != {}
        invariant Message.Keys <= todo
        decreases todo
      {
        var k :| k in todo;
        Message := map x | x in Message && x != k :: Message[x];
        todo := todo - {k};
      }
      assert Message == map[];
      while n > 0
        invariant ReadEntries(p.value, p.rest, map[]) == ReadEntries(n, rest, Message)
      {
        n := n - 1;
        var k := ReadRaw(StrFamily, rest);
        if k.Fail? { return; }
        var v := ReadVal(k.rest);
        if v.Fail? { return; }
        Message := Message[k.value := v.value];
        rest := v.rest;
      }
      ok, o := true, rest;
    }

    /** Reuses the backing array of the old ExtIds when it is long enough. */
    method UnmarshalExtIds(bts: Bytes) returns (ok: bool, o: Bytes)
      requires Valid()
      modifies this`extIds, this`nExt, extIds
      ensures Valid() && (extIds == old(extIds) || fresh(extIds))
      ensures ok <==> ReadIdArray(bts).Done?
      ensures ok ==> ReadIdArray(bts) == Done(extIds[..nExt], o)
    {
      hide ReadInt64;
      ok, o := false, bts;
      var p := ReadHeader(ArrFamily, bts);
      if p.Fail? { return; }
      var rest := p.rest;
      if extIds.Length < p.value {
        extIds := new int64[p.value];
      }
      nExt := p.value;
      var i := 0;
      while i < nExt
        invariant i <= nExt == p.value <= extIds.Length
        invariant extIds == old(extIds) || fresh(extIds)
        invariant ReadIds(p.value, p.rest, []) == ReadIds(nExt - i, rest, extIds[..i])
      {
        var x := ReadInt64(rest);
        if x.Fail? { return; }
        extIds[i] := x.value;
        rest := x.rest;
        i := i + 1;
        assert extIds[..i] == extIds[..i - 1] + [x.value];
      }
      ok, o := true, rest;
    }
  }

  lemma {:induction false} EncodeIdsSnoc(ids: seq<int64>, i: int64)
    ensures EncodeIds(ids + [i]) == EncodeIds(ids) + IntBytes(i)
  {
    if ids == [] {
      assert [] + [i] == [i];
    } else {
      EncodeIdsSnoc(ids[1..], i);
      assert (ids + [i])[1..] == ids[1..] + [i];
      Regroup(IntBytes(ids[0]), EncodeIds(ids[1..]), [], IntBytes(i));
    }
  }

  lemma NinePieces(b: Bytes, p1: Bytes, p2: Bytes, p3: Bytes, p4: Bytes, p5: Bytes,
                   p6: Bytes, p7: Bytes, p8: Bytes, p9: Bytes)
    ensures b + p1 + p2 + p3 + p4 + p5 + p6 + p7 + p8 + p9 == b + (p1 + p2 + p3 + p4 + p5 + p6 + p7 + p8 + p9)
  {
    var w2 := p1 + p2;
    var w3 := w2 + p3;
    var w4 := w3 + p4;
    var w5 := w4 + p5;
    var w6 := w5 + p6;
    var w7 := w6 + p7;
    var w8 := w7 + p8;
    Regroup(b, p1, [], p2);
    Regroup(b, w2, [], p3);
    Regroup(b, w3, [], p4);
    Regroup(b, w4, [], p5);
    Regroup(b, w5, [], p6);
    Regroup(b, w6, [], p7);
    Regroup(b, w7, [], p8);
    Regroup(b, w8, [], p9);
  }

  /** A FluentBatchMsg is an array of values; its slice is reused like ExtIds. */
  class FluentBatchMsg {
    var items: array<Val>
    var n: nat

    ghost predicate Valid()
      reads this
    {
      n <= items.Length
    }

    constructor ()
      ensures Valid() && n == 0
    {
      items := new Val[0];
      n := 0;
    }

    method MarshalMsg(b: Bytes) returns (o: Bytes, ghost ds: seq<Doc>)
      requires Valid() && FitsVal(Arr(items[..n]))
      ensures Fits(ArrDoc(ds)) && ValuesOf(ds) == items[..n]
      ensures o == b + Encode(ArrDoc(ds))
      ensures b <= o && ReadBatch(o[|b|..]) == Done(SettleAll(items[..n]), [])
    {
      ghost var d;
      o, d := AppendIntf(b, Arr(items[..n]));
      assert d.ArrDoc? by { assert ValueOf(d).Arr?; }
      ds := d.ds;
      BatchRoundTrip(ds, []);
      assert (b + Encode(d))[|b|..] == Encode(d) + [];
    }

    method UnmarshalMsg(bts: Bytes) returns (ok: bool, o: Bytes)
      requires Valid()
      modifies this, items
      ensures Valid()
      ensures ok <==> ReadBatch(bts).Done?
      ensures ok ==> ReadBatch(bts) == Done(items[..n], o)
    {
      ok, o := false, bts;
      var p := ReadHeader(ArrFamily, bts);
      if p.Fail? { return; }
      var rest := p.rest;
      if items.Length < p.value {
        items := new Val[p.value](_ => Nil);
      }
      n := p.value;
      var i := 0;
      while i < n
        invariant i <= n == p.value <= items.Length
        invariant items == old(items) || fresh(items)
        invariant ReadVals(p.value, p.rest, []) == ReadVals(n - i, rest, items[..i])
      {
        var x := ReadVal(rest);
        if x.Fail? { return; }
        items[i] := x.value;
        rest := x.rest;
        i := i + 1;
        assert items[..i] == items[..i - 1] + [x.value];
      }
      ok, o := true, rest;
    }
  }

  function ReadBatch(b: Bytes): Parse<seq<Val>> {
    match ReadHeader(ArrFamily, b) case Fail => Fail case Done(n, rest) => ReadVals(n, rest, [])
  }

  lemma BatchRoundTrip(ds: seq<Doc>, rest: Bytes)
    requires Fits(ArrDoc(ds))
    ensures ReadBatch(Encode(ArrDoc(ds)) + rest) == Done(SettleAll(ValuesOf(ds)), rest)
  {
    RoundTripAll(ds, [], rest);
    assert [] + SettleAll(ValuesOf(ds)) == SettleAll(ValuesOf(ds));
    ReadsHeader(ArrFamily, |ds|, EncodeAll(ds) + rest);
    Regroup(Header(ArrFamily, |ds|), EncodeAll(ds), [], rest);
  }
}
