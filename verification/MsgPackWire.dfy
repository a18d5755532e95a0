/** The bytes on the wire, written out as the table "Formats" of the MessagePack specification has them: first bytes and
    numbers byte by byte, for what the encoder writes and for every input that the decoder reads. */
module MsgPackWire {
  import opened MsgPack
  import opened MsgPackFormat

  // ---- Big-endian numbers ----

  lemma Digits1(n: nat)
    requires n < 0x100
    ensures BigEndian(n, 1) == [n as byte]
  {
    assert BigEndian(n / 256, 0) == [];
  }

  lemma Digits2(n: nat)
    requires n < 0x1_0000
    ensures BigEndian(n, 2) == [(n / 0x100) as byte, (n % 0x100) as byte]
  {
    Digits1(n / 256);
  }

  lemma Digits4(n: nat)
    requires n < 0x1_0000_0000
    ensures BigEndian(n, 4) == [(n / 0x100_0000) as byte, (n / 0x1_0000 % 0x100) as byte,
                                (n / 0x100 % 0x100) as byte, (n % 0x100) as byte]
  {
    var m := n / 256;
    assert BigEndian(n, 4) == BigEndian(m, 3) + [(n % 256) as byte];
    assert BigEndian(m, 3) == BigEndian(m / 256, 2) + [(m % 256) as byte];
    assert m / 256 == n / 0x1_0000 && m / 256 / 256 == n / 0x100_0000;
    Digits2(m / 256);
  }

  lemma Digits8(n: nat)
    requires n < 0x1_0000_0000_0000_0000
    ensures BigEndian(n, 8) == [(n / 0x100_0000_0000_0000) as byte, (n / 0x1_0000_0000_0000 % 0x100) as byte,
                                (n / 0x100_0000_0000 % 0x100) as byte, (n / 0x1_0000_0000 % 0x100) as byte,
                                (n / 0x100_0000 % 0x100) as byte, (n / 0x1_0000 % 0x100) as byte,
                                (n / 0x100 % 0x100) as byte, (n % 0x100) as byte]
  {
    var a := n / 256;
    var b := a / 256;
    var c := b / 256;
    var d := c / 256;
    assert BigEndian(n, 8) == BigEndian(a, 7) + [(n % 256) as byte];
    assert BigEndian(a, 7) == BigEndian(b, 6) + [(a % 256) as byte];
    assert BigEndian(b, 6) == BigEndian(c, 5) + [(b % 256) as byte];
    assert BigEndian(c, 5) == BigEndian(d, 4) + [(c % 256) as byte];
    assert b == n / 0x1_0000 && c == n / 0x100_0000 && d == n / 0x1_0000_0000;
    assert d / 0x100_0000 == n / 0x100_0000_0000_0000 && d / 0x1_0000 == n / 0x1_0000_0000_0000;
    assert d / 0x100 == n / 0x100_0000_0000;
    Digits4(d);
  }

  lemma Value4(b: Bytes)
    requires |b| == 4
    ensures FromBigEndian(b[..1]) == b[0] as nat && FromBigEndian(b[..2]) == b[0] as nat * 0x100 + b[1] as nat
    ensures FromBigEndian(b) == b[0] as nat * 0x100_0000 + b[1] as nat * 0x1_0000 + b[2] as nat * 0x100 + b[3] as nat
  {
    assert b[..1][..0] == [] && b[..2][..1] == b[..1] && b[..3][..2] == b[..2];
  }

  lemma Value8(b: Bytes)
    requires |b| == 8
    ensures FromBigEndian(b) == b[0] as nat * 0x100_0000_0000_0000 + b[1] as nat * 0x1_0000_0000_0000
                              + b[2] as nat * 0x100_0000_0000 + b[3] as nat * 0x1_0000_0000
                              + b[4] as nat * 0x100_0000 + b[5] as nat * 0x1_0000 + b[6] as nat * 0x100 + b[7] as nat
  {
    var h := b[..4];
    Value4(h);
    assert b[..5][..4] == h && b[..6][..5] == b[..5] && b[..7][..6] == b[..6];
    assert FromBigEndian(b[..5]) == FromBigEndian(h) * 0x100 + b[4] as nat;
    assert FromBigEndian(b[..6]) == FromBigEndian(b[..5]) * 0x100 + b[5] as nat;
    assert FromBigEndian(b[..7]) == FromBigEndian(b[..6]) * 0x100 + b[6] as nat;
  }

  // ---- What is written ----

  /** Headers: fixstr, str 8, str 16 and str 32, and so on. */
  lemma HeaderOnWire(n: nat)
    requires n < 0x1_0000_0000
    ensures var be2 := [(n / 0x100 % 0x100) as byte, (n % 0x100) as byte];
            var be4 := [(n / 0x100_0000) as byte, (n / 0x1_0000 % 0x100) as byte,
                        (n / 0x100 % 0x100) as byte, (n % 0x100) as byte];
      && Header(StrFamily, n) == (if n <= 31 then [(0xa0 + n) as byte] else if n <= 0xff then [0xd9, n as byte]
                                  else if n <= 0xffff then [0xda] + be2 else [0xdb] + be4)
      && Header(BinFamily, n) == (if n <= 0xff then [0xc4, n as byte]
                                  else if n <= 0xffff then [0xc5] + be2 else [0xc6] + be4)
      && Header(ArrFamily, n) == (if n <= 15 then [(0x90 + n) as byte]
                                  else if n <= 0xffff then [0xdc] + be2 else [0xdd] + be4)
      && Header(MapFamily, n) == (if n <= 15 then [(0x80 + n) as byte]
                                  else if n <= 0xffff then [0xde] + be2 else [0xdf] + be4)
  {
    hide BigEndian;
    if n <= 0xff { Digits1(n); }
    if n <= 0xffff { Digits2(n); }
    Digits4(n);
  }

  /** A text or a byte string: its header, then its bytes as they are. */
  lemma RawOnWire(s: Bytes)
    requires |s| < 0x1_0000_0000
    ensures RawBytes(StrFamily, s) == Header(StrFamily, |s|) + s
    ensures RawBytes(BinFamily, s) == Header(BinFamily, |s|) + s
    ensures |s| <= 31 ==> RawBytes(StrFamily, s) == [(0xa0 + |s|) as byte] + s
    ensures 32 <= |s| <= 0xff ==> RawBytes(StrFamily, s) == [0xd9, |s| as byte] + s
    ensures |s| <= 0xff ==> RawBytes(BinFamily, s) == [0xc4, |s| as byte] + s
  {
    HeaderOnWire(|s|);
  }

  /** Signed numbers: a negative one is written as its two's complement. */
  lemma IntOnWire(i: int64)
    ensures var n := i as int;
            var n2, n4 := (if n < 0 then n + 0x1_0000 else n), (if n < 0 then n + 0x1_0000_0000 else n);
            var n8 := if n < 0 then n + 0x1_0000_0000_0000_0000 else n;
      IntBytes(i) ==
        if 0 <= n <= 127 then [n as byte]
        else if -32 <= n < 0 then [(n + 0x100) as byte]
        else if -0x80 <= n < 0 then [0xd0, (n + 0x100) as byte]
        else if -0x8000 <= n <= 0x7fff then [0xd1, (n2 / 0x100) as byte, (n2 % 0x100) as byte]
        else if -0x8000_0000 <= n <= 0x7fff_ffff
        then [0xd2, (n4 / 0x100_0000) as byte, (n4 / 0x1_0000 % 0x100) as byte,
              (n4 / 0x100 % 0x100) as byte, (n4 % 0x100) as byte]
        else [0xd3, (n8 / 0x100_0000_0000_0000) as byte, (n8 / 0x1_0000_0000_0000 % 0x100) as byte,
              (n8 / 0x100_0000_0000 % 0x100) as byte, (n8 / 0x1_0000_0000 % 0x100) as byte,
              (n8 / 0x100_0000 % 0x100) as byte, (n8 / 0x1_0000 % 0x100) as byte,
              (n8 / 0x100 % 0x100) as byte, (n8 % 0x100) as byte]
  {
    Pow256Values();
    hide BigEndian;
    hide Pow256;
    var n := i as int;
    if 0 <= n <= 127 || -32 <= n < 0 {
    } else if -0x80 <= n < 0 {
      Digits1(n + 0x100);
    } else if -0x8000 <= n <= 0x7fff {
      Digits2(Wrap(n, 2));
    } else if -0x8000_0000 <= n <= 0x7fff_ffff {
      Digits4(Wrap(n, 4));
    } else {
      Digits8(Wrap(n, 8));
    }
  }

  lemma UintOnWire(u: uint64)
    ensures var n := u as int;
      UintBytes(u) ==
        if n <= 127 then [n as byte]
        else if n <= 0xff then [0xcc, n as byte]
        else if n <= 0xffff then [0xcd, (n / 0x100) as byte, (n % 0x100) as byte]
        else if n <= 0xffff_ffff
        then [0xce, (n / 0x100_0000) as byte, (n / 0x1_0000 % 0x100) as byte,
              (n / 0x100 % 0x100) as byte, (n % 0x100) as byte]
        else [0xcf, (n / 0x100_0000_0000_0000) as byte, (n / 0x1_0000_0000_0000 % 0x100) as byte,
              (n / 0x100_0000_0000 % 0x100) as byte, (n / 0x1_0000_0000 % 0x100) as byte,
              (n / 0x100_0000 % 0x100) as byte, (n / 0x1_0000 % 0x100) as byte,
              (n / 0x100 % 0x100) as byte, (n % 0x100) as byte]
  {
    hide BigEndian;
    var n := u as int;
    if n <= 0xff { Digits1(n); }
    if n <= 0xffff { Digits2(n); }
    if n <= 0xffff_ffff { Digits4(n); }
    Digits8(n);
  }

  /** The scalars that a message can carry. */
  lemma ScalarOnWire(v: Val)
    requires Scalar(v)
    ensures v == Nil ==> ScalarBytes(v) == [0xc0]
    ensures v == Bool(false) ==> ScalarBytes(v) == [0xc2]
    ensures v == Bool(true) ==> ScalarBytes(v) == [0xc3]
    ensures v.Int? ==> ScalarBytes(v) == IntBytes(v.i)
    ensures v.Uint? ==> ScalarBytes(v) == UintBytes(v.u)
    ensures v.Float32? ==> |v.bits32| == 4 && ScalarBytes(v) == [0xca] + v.bits32
    ensures v.Float64? ==> |v.bits64| == 8 && ScalarBytes(v) == [0xcb] + v.bits64
    ensures v.Str? ==> ScalarBytes(v) == Header(StrFamily, |v.s|) + v.s
    ensures v.Bin? ==> ScalarBytes(v) == Header(BinFamily, |v.s|) + v.s
  {
  }

  // ---- What is read ----

  lemma ReadBe(b: Bytes, w: nat)
    requires w in {1, 2, 4, 8} && |b| >= 1 + w
    ensures ReadBigEndian(b[1..], w) == Done(FromBigEndian(b[1..1 + w]), b[1 + w..])
    ensures w == 1 ==> FromBigEndian(b[1..2]) == b[1] as nat
    ensures w == 2 ==> FromBigEndian(b[1..3]) == b[1] as nat * 0x100 + b[2] as nat
    ensures w == 4 ==> FromBigEndian(b[1..5]) == b[1] as nat * 0x100_0000 + b[2] as nat * 0x1_0000
                                               + b[3] as nat * 0x100 + b[4] as nat
    ensures w == 8 ==> FromBigEndian(b[1..9]) == b[1] as nat * 0x100_0000_0000_0000 + b[2] as nat * 0x1_0000_0000_0000
                                               + b[3] as nat * 0x100_0000_0000 + b[4] as nat * 0x1_0000_0000
                                               + b[5] as nat * 0x100_0000 + b[6] as nat * 0x1_0000
                                               + b[7] as nat * 0x100 + b[8] as nat
  {
    hide FromBigEndian;
    assert b[1..][..w] == b[1..1 + w] && b[1..][w..] == b[1 + w..];
    if w == 1 {
      Value4(b[1..2] + [0, 0, 0]);
      assert (b[1..2] + [0, 0, 0])[..1] == b[1..2];
    } else if w == 2 {
      Value4(b[1..3] + [0, 0]);
      assert (b[1..3] + [0, 0])[..2] == b[1..3];
    } else if w == 4 {
      Value4(b[1..5]);
    } else {
      Value8(b[1..9]);
    }
  }

  /** A number, for every input that starts like one; an input that is too short or starts otherwise is refused. */
  lemma NumberReadOff(b: Bytes)
    ensures b == [] ==> ReadNumber(b) == Fail
    ensures b != [] && b[0] <= 0x7f ==> ReadNumber(b) == Done(Signed(b[0] as int), b[1..])
    ensures b != [] && b[0] >= 0xe0 ==> ReadNumber(b) == Done(Signed(b[0] as int - 0x100), b[1..])
    ensures b != [] && 0x80 <= b[0] < 0xe0 && !(0xcc <= b[0] <= 0xd3) ==> ReadNumber(b) == Fail
    ensures b != [] && 0xcc <= b[0] <= 0xcf ==>
      var w := if b[0] == 0xcc then 1 else if b[0] == 0xcd then 2 else if b[0] == 0xce then 4 else 8;
      ReadNumber(b) == if |b| < 1 + w then Fail else Done(Unsigned(FromBigEndian(b[1..1 + w])), b[1 + w..])
    ensures b != [] && 0xd0 <= b[0] <= 0xd3 ==>
      var w := if b[0] == 0xd0 then 1 else if b[0] == 0xd1 then 2 else if b[0] == 0xd2 then 4 else 8;
      var over := if w == 1 then 0x100 else if w == 2 then 0x1_0000 else if w == 4 then 0x1_0000_0000
                  else 0x1_0000_0000_0000_0000;
      ReadNumber(b) == if |b| < 1 + w then Fail
                       else
                         var n := FromBigEndian(b[1..1 + w]);
                         Done(Signed(if b[1] >= 0x80 then n - over else n), b[1 + w..])
  {
    Pow256Values();
    hide Pow256;
    hide FromBigEndian;
    if b != [] && 0xcc <= b[0] <= 0xd3 {
      var w := if b[0] in {0xcc, 0xd0} then 1 else if b[0] in {0xcd, 0xd1} then 2
               else if b[0] in {0xce, 0xd2} then 4 else 8;
      if |b| >= 1 + w { ReadBe(b, w); }
    }
  }

  /** A header of a family, likewise; a str 8 of five bytes is read as well as a fixstr. */
  lemma HeaderReadOff(b: Bytes)
    requires b != []
    ensures 0xa0 <= b[0] <= 0xbf ==> ReadHeader(StrFamily, b) == Done(b[0] as nat - 0xa0, b[1..])
    ensures 0x90 <= b[0] <= 0x9f ==> ReadHeader(ArrFamily, b) == Done(b[0] as nat - 0x90, b[1..])
    ensures 0x80 <= b[0] <= 0x8f ==> ReadHeader(MapFamily, b) == Done(b[0] as nat - 0x80, b[1..])
    ensures b[0] == 0xd9 ==> ReadHeader(StrFamily, b) == LengthOf(b, 1)
    ensures b[0] == 0xda ==> ReadHeader(StrFamily, b) == LengthOf(b, 2)
    ensures b[0] == 0xdb ==> ReadHeader(StrFamily, b) == LengthOf(b, 4)
    ensures b[0] == 0xc4 ==> ReadHeader(BinFamily, b) == LengthOf(b, 1)
    ensures b[0] == 0xc5 ==> ReadHeader(BinFamily, b) == LengthOf(b, 2)
    ensures b[0] == 0xc6 ==> ReadHeader(BinFamily, b) == LengthOf(b, 4)
    ensures b[0] == 0xdc ==> ReadHeader(ArrFamily, b) == LengthOf(b, 2)
    ensures b[0] == 0xdd ==> ReadHeader(ArrFamily, b) == LengthOf(b, 4)
    ensures b[0] == 0xde ==> ReadHeader(MapFamily, b) == LengthOf(b, 2)
    ensures b[0] == 0xdf ==> ReadHeader(MapFamily, b) == LengthOf(b, 4)
    ensures ReadHeader(StrFamily, b).Done? ==> 0xa0 <= b[0] <= 0xbf || 0xd9 <= b[0] <= 0xdb
    ensures ReadHeader(BinFamily, b).Done? ==> 0xc4 <= b[0] <= 0xc6
    ensures ReadHeader(ArrFamily, b).Done? ==> 0x90 <= b[0] <= 0x9f || 0xdc <= b[0] <= 0xdd
    ensures ReadHeader(MapFamily, b).Done? ==> 0x80 <= b[0] <= 0x8f || 0xde <= b[0] <= 0xdf
  {
    hide FromBigEndian;
    if |b| >= 2 { ReadBe(b, 1); }
    if |b| >= 3 { ReadBe(b, 2); }
    if |b| >= 5 { ReadBe(b, 4); }
  }

  /** The length behind the first byte, in one, two or four bytes. */
  function LengthOf(b: Bytes, w: nat): (p: Parse<nat>)
    requires w in {1, 2, 4}
    ensures |b| < 1 + w ==> p == Fail
    ensures |b| >= 1 + w ==> p.Done? && p.rest == b[1 + w..]
    ensures |b| >= 1 + w && w == 1 ==> p.value == b[1] as nat
    ensures |b| >= 1 + w && w == 2 ==> p.value == b[1] as nat * 0x100 + b[2] as nat
    ensures |b| >= 1 + w && w == 4 ==> p.value == b[1] as nat * 0x100_0000 + b[2] as nat * 0x1_0000
                                               + b[3] as nat * 0x100 + b[4] as nat
  {
    if |b| < 1 + w then Fail
    else
      ReadBe(b, w);
      Done(FromBigEndian(b[1..1 + w]), b[1 + w..])
  }

  /** Every number read off fits into 64 bits. */
  lemma NumberInRange(b: Bytes)
    ensures match ReadNumber(b)
            case Fail => true
            case Done(Signed(i), _) => -0x8000_0000_0000_0000 <= i < 0x8000_0000_0000_0000
            case Done(Unsigned(u), _) => u < 0x1_0000_0000_0000_0000
    ensures b != [] && ReadNumber(b).Done? ==> (ReadNumber(b).value.Unsigned? <==> 0xcc <= b[0] <= 0xcf)
  {
    NumberReadOff(b);
    hide ReadNumber;
    hide FromBigEndian;
    if b != [] && 0xcc <= b[0] <= 0xd3 {
      var w := if b[0] in {0xcc, 0xd0} then 1 else if b[0] in {0xcd, 0xd1} then 2
               else if b[0] in {0xce, 0xd2} then 4 else 8;
      if |b| >= 1 + w { ReadBe(b, w); }
    }
  }

  /** What value begins with which byte, for every input. */
  lemma ValueReadOff(b: Bytes)
    requires b != []
    ensures b[0] == 0xc0 ==> ReadVal(b) == Done(Nil, b[1..])
    ensures b[0] == 0xc2 ==> ReadVal(b) == Done(Bool(false), b[1..])
    ensures b[0] == 0xc3 ==> ReadVal(b) == Done(Bool(true), b[1..])
    ensures b[0] == 0xca ==> ReadVal(b) == if |b| < 5 then Fail else Done(Float32(b[1..5]), b[5..])
    ensures b[0] == 0xcb ==> ReadVal(b) == if |b| < 9 then Fail else Done(Float64(b[1..9]), b[9..])
  {
    hide ReadRaw;
    hide ReadVals;
    hide ReadEntries;
    hide ReadHeader;
    hide ReadNumber;
    if b[0] == 0xca && |b| >= 5 { assert b[1..][..4] == b[1..5] && b[1..][4..] == b[5..]; }
    if b[0] == 0xcb && |b| >= 9 { assert b[1..][..8] == b[1..9] && b[1..][8..] == b[9..]; }
  }

  lemma TextValueReadOff(b: Bytes)
    requires b != []
    ensures 0xa0 <= b[0] <= 0xbf || 0xd9 <= b[0] <= 0xdb ==>
              ReadVal(b) == match ReadRaw(StrFamily, b) case Fail => Fail case Done(s, rest) => Done(Str(s), rest)
    ensures 0xc4 <= b[0] <= 0xc6 ==>
              ReadVal(b) == match ReadRaw(BinFamily, b) case Fail => Fail case Done(s, rest) => Done(Bin(s), rest)
  {
    hide ReadRaw;
    hide ReadVals;
    hide ReadEntries;
    hide ReadHeader;
    hide ReadNumber;
  }

  /** Extension formats, and the one byte that is no format, are refused. */
  lemma RestRefused(b: Bytes)
    requires b != [] && (b[0] == 0xc1 || 0xc7 <= b[0] <= 0xc9 || 0xd4 <= b[0] <= 0xd8)
    ensures ReadVal(b) == Fail
  {
    NumberReadOff(b);
    hide ReadRaw;
    hide ReadVals;
    hide ReadEntries;
    hide ReadHeader;
    hide ReadNumber;
  }

  /** An array is its header and as many values, a map its header and as many texts and values; the last value of a text
      counts, and the first failure ends it. */
  lemma CollectionReadOff(b: Bytes, n: nat, vs: seq<Val>, m: map<Bytes, Val>)
    requires b != []
    ensures 0x90 <= b[0] <= 0x9f || 0xdc <= b[0] <= 0xdd ==>
              match ReadHeader(ArrFamily, b)
              case Fail => ReadVal(b) == Fail
              case Done(k, rest) =>
                ReadVal(b) == match ReadVals(k, rest, []) case Fail => Fail case Done(xs, left) => Done(Arr(xs), left)
    ensures 0x80 <= b[0] <= 0x8f || 0xde <= b[0] <= 0xdf ==>
              match ReadHeader(MapFamily, b)
              case Fail => ReadVal(b) == Fail
              case Done(k, rest) =>
                ReadVal(b)
                == match ReadEntries(k, rest, map[]) case Fail => Fail case Done(es, left) => Done(Map(es), left)
    ensures ReadVals(0, b, vs) == Done(vs, b) && ReadEntries(0, b, m) == Done(m, b)
    ensures ReadVals(n + 1, b, vs)
         == match ReadVal(b) case Fail => Fail case Done(v, rest) => ReadVals(n, rest, vs + [v])
    ensures match ReadRaw(StrFamily, b)
            case Fail => ReadEntries(n + 1, b, m) == Fail
            case Done(k, mid) =>
              ReadEntries(n + 1, b, m)
              == match ReadVal(mid) case Fail => Fail case Done(v, rest) => ReadEntries(n, rest, m[k := v])
  {
    hide ReadRaw;
    hide ReadHeader;
    hide ReadNumber;
    hide ReadScalar;
  }

  lemma NumberValueReadOff(b: Bytes)
    requires b != [] && (b[0] <= 0x7f || b[0] >= 0xe0 || 0xcc <= b[0] <= 0xd3)
    ensures ReadVal(b).Done? <==> ReadNumber(b).Done?
    ensures ReadVal(b).Done? ==>
              match ReadVal(b).value
              case Int(i) => !(0xcc <= b[0] <= 0xcf) && ReadNumber(b) == Done(Signed(i as int), ReadVal(b).rest)
              case Uint(u) => 0xcc <= b[0] <= 0xcf && ReadNumber(b) == Done(Unsigned(u as nat), ReadVal(b).rest)
              case _ => false
  {
    NumberInRange(b);
    hide ReadNumber;
  }

  /** A text or byte string with its length read off: that many bytes, if they are there. */
  lemma RawReadOff(f: Family, b: Bytes)
    ensures match ReadHeader(f, b)
            case Fail => ReadRaw(f, b) == Fail
            case Done(n, rest) => if |rest| < n then ReadRaw(f, b) == Fail
                                  else ReadRaw(f, b) == Done(rest[..n], rest[n..])
  {
  }
}
