/** The byte primitives of the MessagePack specification ("Formats"): big-endian numbers and the
    headers of the int, str, bin, array and map families, with a reader for each writer. */
module MsgPackFormat {
  newtype byte = x: int | 0 <= x < 256
  newtype int64 = x: int | -0x8000_0000_0000_0000 <= x < 0x8000_0000_0000_0000
  newtype uint64 = x: int | 0 <= x < 0x1_0000_0000_0000_0000

  type Bytes = seq<byte>

  /** A reader either fails or yields a value and the bytes behind it. */
  datatype Parse<+T> = Fail | Done(value: T, rest: Bytes)

  function Pow256(w: nat): (r: nat)
    ensures r >= 1
  {
    if w == 0 then 1 else 256 * Pow256(w - 1)
  }

  lemma Pow256Values()
    ensures Pow256(1) == 0x100 && Pow256(2) == 0x1_0000
    ensures Pow256(4) == 0x1_0000_0000 && Pow256(8) == 0x1_0000_0000_0000_0000
  {
    assert Pow256(2) == 256 * Pow256(1) && Pow256(3) == 256 * Pow256(2) && Pow256(4) == 256 * Pow256(3);
    assert Pow256(5) == 256 * Pow256(4) && Pow256(6) == 256 * Pow256(5);
    assert Pow256(7) == 256 * Pow256(6) && Pow256(8) == 256 * Pow256(7);
  }

  function BigEndian(n: nat, w: nat): (b: Bytes)
    ensures |b| == w
  {
    if w == 0 then [] else BigEndian(n / 256, w - 1) + [(n % 256) as byte]
  }

  function FromBigEndian(b: Bytes): nat {
    if b == [] then 0 else FromBigEndian(b[..|b| - 1]) * 256 + b[|b| - 1] as nat
  }

  function ReadBigEndian(b: Bytes, w: nat): Parse<nat> {
    if |b| < w then Fail else Done(FromBigEndian(b[..w]), b[w..])
  }

  lemma {:induction false} BigEndianRoundTrip(n: nat, w: nat)
    requires n < Pow256(w)
    ensures FromBigEndian(BigEndian(n, w)) == n
  {
    if w > 0 {
      BigEndianRoundTrip(n / 256, w - 1);
      var b := BigEndian(n, w);
      assert b[..|b| - 1] == BigEndian(n / 256, w - 1);
    }
  }

  lemma ReadsBigEndian(n: nat, w: nat, rest: Bytes)
    requires n < Pow256(w)
    ensures ReadBigEndian(BigEndian(n, w) + rest, w) == Done(n, rest)
  {
    BigEndianRoundTrip(n, w);
    var b := BigEndian(n, w) + rest;
    assert b[..w] == BigEndian(n, w) && b[w..] == rest;
  }

  // ---- Two's complement ----

  function Wrap(i: int, w: nat): (n: nat)
    requires w >= 1 && -(Pow256(w) / 2) <= i < Pow256(w) / 2
    ensures n < Pow256(w)
  {
    if i < 0 then i + Pow256(w) else i
  }

  function Unwrap(n: nat, w: nat): int {
    if n >= Pow256(w) / 2 then n - Pow256(w) else n
  }

  lemma {:induction false} WrapRoundTrip(i: int, w: nat)
    requires w >= 1 && -(Pow256(w) / 2) <= i < Pow256(w) / 2
    ensures Unwrap(Wrap(i, w), w) == i
  {
    assert Pow256(w) == 256 * Pow256(w - 1);
  }

  // ---- Integers ----

  function SignedBytes(tag: byte, i: int, w: nat): Bytes
    requires w >= 1 && -(Pow256(w) / 2) <= i < Pow256(w) / 2
  {
    [tag] + BigEndian(Wrap(i, w), w)
  }

  /** The signed writer picks the shortest signed form. */
  function IntBytes(i: int64): (b: Bytes)
    ensures 1 <= |b| <= 9
  {
    Pow256Values();
    if 0 <= i <= 0x7f then [i as byte]
    else if -32 <= i < 0 then [(256 + i as int) as byte]
    else if -0x80 <= i < 0 then SignedBytes(0xd0, i as int, 1)
    else if -0x8000 <= i <= 0x7fff then SignedBytes(0xd1, i as int, 2)
    else if -0x8000_0000 <= i <= 0x7fff_ffff then SignedBytes(0xd2, i as int, 4)
    else SignedBytes(0xd3, i as int, 8)
  }

  /** The unsigned writer uses the positive fixint form for small numbers too. */
  function UintBytes(u: uint64): (b: Bytes)
    ensures 1 <= |b| <= 9
  {
    if u <= 0x7f then [u as byte]
    else if u <= 0xff then [0xcc] + BigEndian(u as nat, 1)
    else if u <= 0xffff then [0xcd] + BigEndian(u as nat, 2)
    else if u <= 0xffff_ffff then [0xce] + BigEndian(u as nat, 4)
    else [0xcf] + BigEndian(u as nat, 8)
  }

  datatype Number = Signed(i: int) | Unsigned(u: nat)

  function Sign(p: Parse<nat>, w: nat): Parse<Number> {
    match p case Fail => Fail case Done(n, rest) => Done(Signed(Unwrap(n, w)), rest)
  }

  function Unsign(p: Parse<nat>): Parse<Number> {
    match p case Fail => Fail case Done(n, rest) => Done(Unsigned(n), rest)
  }

  /** Any form of the int family. */
  function ReadNumber(b: Bytes): (p: Parse<Number>)
    ensures p.Done? ==> |p.rest| < |b|
  {
    if b == [] then Fail
    else if b[0] <= 0x7f then Done(Signed(b[0] as int), b[1..])
    else if b[0] >= 0xe0 then Done(Signed(b[0] as int - 256), b[1..])
    else if b[0] == 0xd0 then Sign(ReadBigEndian(b[1..], 1), 1)
    else if b[0] == 0xd1 then Sign(ReadBigEndian(b[1..], 2), 2)
    else if b[0] == 0xd2 then Sign(ReadBigEndian(b[1..], 4), 4)
    else if b[0] == 0xd3 then Sign(ReadBigEndian(b[1..], 8), 8)
    else if b[0] == 0xcc then Unsign(ReadBigEndian(b[1..], 1))
    else if b[0] == 0xcd then Unsign(ReadBigEndian(b[1..], 2))
    else if b[0] == 0xce then Unsign(ReadBigEndian(b[1..], 4))
    else if b[0] == 0xcf then Unsign(ReadBigEndian(b[1..], 8))
    else Fail
  }

  lemma ReadsTagged(tag: byte, n: nat, w: nat, rest: Bytes)
    requires n < Pow256(w)
    ensures var b := [tag] + BigEndian(n, w) + rest;
      b != [] && b[0] == tag && ReadBigEndian(b[1..], w) == Done(n, rest)
  {
    var b := [tag] + BigEndian(n, w) + rest;
    assert b[1..] == BigEndian(n, w) + rest;
    ReadsBigEndian(n, w, rest);
  }

  lemma ReadsSigned(tag: byte, i: int, w: nat, rest: Bytes)
    requires w >= 1 && -(Pow256(w) / 2) <= i < Pow256(w) / 2
    requires (tag, w) in {(0xd0, 1), (0xd1, 2), (0xd2, 4), (0xd3, 8)}
    ensures ReadNumber(SignedBytes(tag, i, w) + rest) == Done(Signed(i), rest)
  {
    WrapRoundTrip(i, w);
    ReadsTagged(tag, Wrap(i, w), w, rest);
  }

  lemma ReadsInt(i: int64, rest: Bytes)
    ensures ReadNumber(IntBytes(i) + rest) == Done(Signed(i as int), rest)
  {
    Pow256Values();
    if 0 <= i <= 0x7f || -32 <= i < 0 {
      assert (IntBytes(i) + rest)[1..] == rest;
    } else if -0x80 <= i < 0 {
      ReadsSigned(0xd0, i as int, 1, rest);
    } else if -0x8000 <= i <= 0x7fff {
      ReadsSigned(0xd1, i as int, 2, rest);
    } else if -0x8000_0000 <= i <= 0x7fff_ffff {
      ReadsSigned(0xd2, i as int, 4, rest);
    } else {
      ReadsSigned(0xd3, i as int, 8, rest);
    }
  }

  lemma ReadsUint(u: uint64, rest: Bytes)
    ensures ReadNumber(UintBytes(u) + rest)
      == Done(if u <= 0x7f then Signed(u as int) else Unsigned(u as nat), rest)
  {
    Pow256Values();
    if u <= 0x7f {
      assert (UintBytes(u) + rest)[1..] == rest;
    } else if u <= 0xff {
      ReadsTagged(0xcc, u as nat, 1, rest);
    } else if u <= 0xffff {
      ReadsTagged(0xcd, u as nat, 2, rest);
    } else if u <= 0xffff_ffff {
      ReadsTagged(0xce, u as nat, 4, rest);
    } else {
      ReadsTagged(0xcf, u as nat, 8, rest);
    }
  }

  // ---- Headers: a short form with the length in the tag, then 8, 16 and 32 bit lengths ----

  const MAX_LENGTH: nat := 0x1_0000_0000

  datatype Family = StrFamily | BinFamily | ArrFamily | MapFamily

  /** The tags of a family: short tag, how many short lengths there are, then the 8, 16 and 32 bit
      tags; a form that a family lacks has no entry. */
  function ShortTag(f: Family): nat {
    match f case StrFamily => 0xa0 case BinFamily => 0 case ArrFamily => 0x90 case MapFamily => 0x80
  }

  function ShortCount(f: Family): nat {
    match f case StrFamily => 32 case BinFamily => 0 case ArrFamily => 16 case MapFamily => 16
  }

  predicate Has8(f: Family) {
    f.StrFamily? || f.BinFamily?
  }

  function Tag8(f: Family): byte {
    if f.StrFamily? then 0xd9 else 0xc4
  }

  function Tag16(f: Family): byte {
    match f case StrFamily => 0xda case BinFamily => 0xc5 case ArrFamily => 0xdc case MapFamily => 0xde
  }

  function Tag32(f: Family): byte {
    match f case StrFamily => 0xdb case BinFamily => 0xc6 case ArrFamily => 0xdd case MapFamily => 0xdf
  }

  function Header(f: Family, n: nat): (b: Bytes)
    requires n < MAX_LENGTH
    ensures 1 <= |b| <= 5
  {
    if n < ShortCount(f) then [(ShortTag(f) + n) as byte]
    else if Has8(f) && n <= 0xff then [Tag8(f)] + BigEndian(n, 1)
    else if n <= 0xffff then [Tag16(f)] + BigEndian(n, 2)
    else [Tag32(f)] + BigEndian(n, 4)
  }

  predicate StartsFamily(f: Family, tag: byte) {
    || ShortTag(f) <= tag as nat < ShortTag(f) + ShortCount(f)
    || (Has8(f) && tag == Tag8(f))
    || tag == Tag16(f)
    || tag == Tag32(f)
  }

  function ReadHeader(f: Family, b: Bytes): (p: Parse<nat>)
    ensures p.Done? ==> |p.rest| < |b|
  {
    if b == [] then Fail
    else if ShortTag(f) <= b[0] as nat < ShortTag(f) + ShortCount(f) then Done(b[0] as nat - ShortTag(f), b[1..])
    else if Has8(f) && b[0] == Tag8(f) then ReadBigEndian(b[1..], 1)
    else if b[0] == Tag16(f) then ReadBigEndian(b[1..], 2)
    else if b[0] == Tag32(f) then ReadBigEndian(b[1..], 4)
    else Fail
  }

  lemma ReadsHeader(f: Family, n: nat, rest: Bytes)
    requires n < MAX_LENGTH
    ensures ReadHeader(f, Header(f, n) + rest) == Done(n, rest)
    ensures StartsFamily(f, Header(f, n)[0])
  {
    Pow256Values();
    if n < ShortCount(f) {
      assert (Header(f, n) + rest)[1..] == rest;
    } else if Has8(f) && n <= 0xff {
      ReadsTagged(Tag8(f), n, 1, rest);
    } else if n <= 0xffff {
      ReadsTagged(Tag16(f), n, 2, rest);
    } else {
      ReadsTagged(Tag32(f), n, 4, rest);
    }
  }

  // ---- Length-prefixed byte strings ----

  function RawBytes(f: Family, s: Bytes): Bytes
    requires |s| < MAX_LENGTH
  {
    Header(f, |s|) + s
  }

  function ReadRaw(f: Family, b: Bytes): (p: Parse<Bytes>)
    ensures p.Done? ==> |p.rest| < |b|
  {
    match ReadHeader(f, b)
    case Fail => Fail
    case Done(n, rest) => if |rest| < n then Fail else Done(rest[..n], rest[n..])
  }

  lemma ReadsRaw(f: Family, s: Bytes, rest: Bytes)
    requires |s| < MAX_LENGTH
    ensures ReadRaw(f, RawBytes(f, s) + rest) == Done(s, rest)
    ensures StartsFamily(f, RawBytes(f, s)[0])
  {
    ReadsHeader(f, |s|, s + rest);
    assert RawBytes(f, s) + rest == Header(f, |s|) + (s + rest);
    assert (s + rest)[..|s|] == s && (s + rest)[|s|..] == rest;
  }
}
