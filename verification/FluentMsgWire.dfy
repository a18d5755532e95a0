/** FluentMsg on the wire: which fields under which names, in which order; and what the decoder makes of fields that the
    encoder does not write so. */
module FluentMsgWire {
  import opened FluentMsgCodec
  import opened MsgPack
  import opened MsgPackFormat
  import opened MsgPackWire
  import opened MsgSize

  /** The bytes of a name in ASCII. */
  function Ascii(s: string): (b: Bytes)
    requires forall i :: 0 <= i < |s| ==> s[i] as int < 128
    ensures |b| == |s| && forall i :: 0 <= i < |s| ==> b[i] as int == s[i] as int
  {
    if s == "" then [] else Ascii(s[..|s| - 1]) + [s[|s| - 1] as int as byte]
  }

  /** A short name as the formats have it. */
  function Name(s: string): Bytes
    requires |s| <= 31 && forall i :: 0 <= i < |s| ==> s[i] as int < 128
  {
    [(0xa0 + |s|) as byte] + Ascii(s)
  }

  lemma NamesOnWire()
    ensures Name("Tag") == [0xa3, 0x54, 0x61, 0x67] && TAG == Ascii("Tag")
    ensures Name("Message") == [0xa7, 0x4d, 0x65, 0x73, 0x73, 0x61, 0x67, 0x65] && MESSAGE == Ascii("Message")
    ensures Name("Id") == [0xa2, 0x49, 0x64] && ID_KEY == Ascii("Id")
    ensures Name("ExtIds") == [0xa6, 0x45, 0x78, 0x74, 0x49, 0x64, 0x73] && EXT_IDS == Ascii("ExtIds")
  {
  }

  /** A map of four fields: Tag, Message, Id, ExtIds, each a name and its value. */
  lemma MsgOnWire(tag: Bytes, es: seq<Entry>, id: int64, ext: seq<int64>)
    requires FitsMsg(tag, es, ext)
    ensures EncodeMsg(tag, es, id, ext)
         == [0x84] + Name("Tag") + RawBytes(StrFamily, tag)
          + Name("Message") + Header(MapFamily, |es|) + EncodeEntries(es)
          + Name("Id") + IntBytes(id)
          + Name("ExtIds") + Header(ArrFamily, |ext|) + EncodeIds(ext)
  {
    NamesOnWire();
    assert [0x84] + [0xa3, 0x54, 0x61, 0x67] == [0x84, 0xa3, 0x54, 0x61, 0x67];
  }

  /** An array is its header and its elements, a map its header and then name, value, name, value, in order. */
  lemma CollectionsOnWire(ds: seq<Doc>, es: seq<Entry>, ids: seq<int64>)
    requires Fits(ArrDoc(ds)) && Fits(MapDoc(es))
    ensures Encode(ArrDoc(ds)) == Header(ArrFamily, |ds|) + EncodeAll(ds)
    ensures Encode(MapDoc(es)) == Header(MapFamily, |es|) + EncodeEntries(es)
    ensures EncodeAll([]) == [] && EncodeEntries([]) == [] && EncodeIds([]) == []
    ensures ds != [] ==> EncodeAll(ds) == Encode(ds[0]) + EncodeAll(ds[1..])
    ensures es != [] ==>
              EncodeEntries(es) == RawBytes(StrFamily, es[0].key) + Encode(es[0].val) + EncodeEntries(es[1..])
    ensures ids != [] ==> EncodeIds(ids) == IntBytes(ids[0]) + EncodeIds(ids[1..])
  {
  }

  /** An id is read in either kind of number, if it fits. */
  lemma Int64ReadOff(b: Bytes)
    ensures match ReadNumber(b)
            case Fail => ReadInt64(b) == Fail
            case Done(Signed(i), rest) =>
              ReadInt64(b).Done? && ReadInt64(b).value as int == i && ReadInt64(b).rest == rest
            case Done(Unsigned(u), rest) =>
              if u <= 0x7fff_ffff_ffff_ffff
              then ReadInt64(b).Done? && ReadInt64(b).value as int == u && ReadInt64(b).rest == rest
              else ReadInt64(b) == Fail
  {
    NumberInRange(b);
    hide ReadNumber;
  }

  /** A name may be a text or a byte string, in any of their forms. */
  lemma KeyReadOff(f: Family, key: Bytes, rest: Bytes)
    requires (f == StrFamily || f == BinFamily) && |key| < 0x1_0000_0000
    ensures ReadKey(RawBytes(f, key) + rest) == Done(key, rest)
  {
    ReadsRaw(f, key, rest);
    var b := RawBytes(f, key) + rest;
    HeaderOnWire(|key|);
    assert b[0] == Header(f, |key|)[0];
    RawReadOff(StrFamily, b);
    HeaderReadOff(b);
  }

  /** Each of the four names has its own field of the receiver, which is overwritten with what is read. */
  lemma FieldReadOff(b: Bytes, m: Msg)
    ensures match ReadRaw(StrFamily, b)
            case Fail => ReadField(TAG, b, m) == Fail
            case Done(s, rest) => ReadField(TAG, b, m) == Done(Msg(s, m.message, m.id, m.extIds), rest)
    ensures match ReadMessage(b)
            case Fail => ReadField(MESSAGE, b, m) == Fail
            case Done(es, rest) => ReadField(MESSAGE, b, m) == Done(Msg(m.tag, es, m.id, m.extIds), rest)
    ensures match ReadInt64(b)
            case Fail => ReadField(ID_KEY, b, m) == Fail
            case Done(i, rest) => ReadField(ID_KEY, b, m) == Done(Msg(m.tag, m.message, i, m.extIds), rest)
    ensures match ReadIdArray(b)
            case Fail => ReadField(EXT_IDS, b, m) == Fail
            case Done(ids, rest) => ReadField(EXT_IDS, b, m) == Done(Msg(m.tag, m.message, m.id, ids), rest)
  {
    hide ReadRaw;
    hide ReadMessage;
    hide ReadInt64;
    hide ReadIdArray;
  }

  /** The map of a message and its array of ids are headers and as many entries and ids. */
  lemma PartsReadOff(b: Bytes, n: nat, ids: seq<int64>)
    ensures match ReadHeader(MapFamily, b)
            case Fail => ReadMessage(b) == Fail
            case Done(k, rest) => ReadMessage(b) == ReadEntries(k, rest, map[])
    ensures match ReadHeader(ArrFamily, b)
            case Fail => ReadIdArray(b) == Fail
            case Done(k, rest) => ReadIdArray(b) == ReadIds(k, rest, [])
    ensures ReadIds(0, b, ids) == Done(ids, b)
    ensures match ReadInt64(b)
            case Fail => ReadIds(n + 1, b, ids) == Fail
            case Done(i, rest) => ReadIds(n + 1, b, ids) == ReadIds(n, rest, ids + [i])
  {
    hide ReadHeader;
    hide ReadInt64;
    hide ReadEntries;
  }

  /** A field under any other name is passed over: the receiver stays as it is. */
  lemma UnknownFieldSkipped(key: Bytes, b: Bytes, m: Msg)
    requires key != Ascii("Tag") && key != Ascii("Message") && key != Ascii("Id") && key != Ascii("ExtIds")
    ensures match ReadVal(b)
            case Fail => ReadField(key, b, m) == Fail
            case Done(_, rest) => ReadField(key, b, m) == Done(m, rest)
  {
    NamesOnWire();
  }

  /** The fields come in any order, and the last one of a name counts; none is asked for. */
  lemma FieldsInTurn(n: nat, b: Bytes, m: Msg)
    ensures ReadFields(0, b, m) == Done(m, b)
    ensures n > 0 ==>
              match ReadKey(b)
              case Fail => ReadFields(n, b, m) == Fail
              case Done(key, mid) =>
                match ReadField(key, mid, m)
                case Fail => ReadFields(n, b, m) == Fail
                case Done(m', rest) => ReadFields(n, b, m) == ReadFields(n - 1, rest, m')
  {
  }

  // ---- The guesses, number by number ----

  /** How far the guess for a scalar is above its length: nothing for nil, booleans and floats; the unused part of a
      five byte header for texts and byte strings; what is missing to nine bytes for numbers. */
  lemma ScalarSlack(v: Val)
    requires Scalar(v)
    ensures v.Nil? || v.Bool? ==> GuessSize(Atom(v)) == 1 == |ScalarBytes(v)|
    ensures v.Float32? ==> GuessSize(Atom(v)) == 5 == |ScalarBytes(v)|
    ensures v.Float64? ==> GuessSize(Atom(v)) == 9 == |ScalarBytes(v)|
    ensures v.Str? || v.Bin? ==> GuessSize(Atom(v)) == 5 + |v.s|
    ensures v.Int? || v.Uint? ==> GuessSize(Atom(v)) == 9
  {
  }

  /** The guess for a whole message: 47 bytes, the tag, nine for each further id, and for each entry five, its key
      and the guess for its value. */
  lemma MsgsizeIs(tag: Bytes, es: seq<Entry>, ext: seq<int64>)
    ensures Msgsize(tag, es, ext) == 47 + |tag| + 9 * |ext| + GuessEntries(es)
    ensures GuessEntries([]) == 0
    ensures es != [] ==> GuessEntries(es) == 5 + |es[0].key| + GuessSize(es[0].val) + GuessEntries(es[1..])
    ensures GuessSize(MapDoc(es)) == 5 + GuessEntries(es)
    ensures forall ds :: GuessSize(ArrDoc(ds)) == 512 && BatchMsgsize(ds) == 5 + GuessAll(ds)
  {
  }
}
