/** The MessagePack codec of library/data_gen.go. */
module MsgPack {
  import opened MsgPackFormat

  /** The dynamic values a message can carry. Floats are given by their bit patterns. */
  datatype Val =
    | Nil
    | Bool(b: bool)
    | Int(i: int64)
    | Uint(u: uint64)
    | Float32(bits32: Bytes)
    | Float64(bits64: Bytes)
    | Str(s: Bytes)
    | Bin(s: Bytes)
    | Arr(vs: seq<Val>)
    | Map(m: map<Bytes, Val>)

  /** A value together with an order of iteration for each map in it: the encoder ranges over maps,
      so its output depends on that order. */
  datatype Doc =
    | Atom(v: Val)
    | ArrDoc(ds: seq<Doc>)
    | MapDoc(es: seq<Entry>)

  datatype Entry = Entry(key: Bytes, val: Doc)

  predicate Scalar(v: Val) {
    match v
    case Arr(_) => false
    case Map(_) => false
    case Float32(bits) => |bits| == 4
    case Float64(bits) => |bits| == 8
    case Str(s) => |s| < MAX_LENGTH
    case Bin(s) => |s| < MAX_LENGTH
    case _ => true
  }

  /** What the format can represent: every length fits in its 32-bit header. */
  predicate Fits(d: Doc) {
    match d
    case Atom(v) => Scalar(v)
    case ArrDoc(ds) => |ds| < MAX_LENGTH && forall i :: 0 <= i < |ds| ==> Fits(ds[i])
    case MapDoc(es) => |es| < MAX_LENGTH && FitEntries(es)
  }

  predicate FitEntries(es: seq<Entry>) {
    forall i :: 0 <= i < |es| ==> |es[i].key| < MAX_LENGTH && Fits(es[i].val)
  }

  // ---- Encoder ----

  function ScalarBytes(v: Val): (b: Bytes)
    requires Scalar(v)
    ensures b != []
  {
    match v
    case Nil => [0xc0]
    case Bool(b) => [if b then 0xc3 else 0xc2]
    case Int(i) => IntBytes(i)
    case Uint(u) => UintBytes(u)
    case Float32(bits) => [0xca] + bits
    case Float64(bits) => [0xcb] + bits
    case Str(s) => RawBytes(StrFamily, s)
    case Bin(s) => RawBytes(BinFamily, s)
  }

  function Encode(d: Doc): (b: Bytes)
    requires Fits(d)
    ensures b != []
  {
    match d
    case Atom(v) => ScalarBytes(v)
    case ArrDoc(ds) => Header(ArrFamily, |ds|) + EncodeAll(ds)
    case MapDoc(es) => Header(MapFamily, |es|) + EncodeEntries(es)
  }

  function EncodeAll(ds: seq<Doc>): Bytes
    requires forall i :: 0 <= i < |ds| ==> Fits(ds[i])
  {
    if ds == [] then [] else Encode(ds[0]) + EncodeAll(ds[1..])
  }

  function EncodeEntries(es: seq<Entry>): Bytes
    requires FitEntries(es)
  {
    if es == [] then []
    else RawBytes(StrFamily, es[0].key) + Encode(es[0].val) + EncodeEntries(es[1..])
  }

  // ---- Decoder ----

  function ReadSized(b: Bytes, n: nat): Parse<Bytes> {
    if |b| < n then Fail else Done(b[..n], b[n..])
  }

  /** msgp.ReadIntfBytes: any value; the extension family is not modelled and fails. */
  function ReadVal(b: Bytes): (p: Parse<Val>)
    ensures p.Done? ==> |p.rest| < |b|
    decreases |b|, 0, 0
  {
    if b == [] then Fail
    else if StartsFamily(MapFamily, b[0]) then
      match ReadHeader(MapFamily, b)
      case Fail => Fail
      case Done(n, rest) =>
        match ReadEntries(n, rest, map[])
        case Fail => Fail
        case Done(m, rest') => Done(Map(m), rest')
    else if StartsFamily(ArrFamily, b[0]) then
      match ReadHeader(ArrFamily, b)
      case Fail => Fail
      case Done(n, rest) =>
        match ReadVals(n, rest, [])
        case Fail => Fail
        case Done(vs, rest') => Done(Arr(vs), rest')
    else ReadScalar(b)
  }

  function ReadScalar(b: Bytes): (p: Parse<Val>)
    requires b != []
    ensures p.Done? ==> |p.rest| < |b|
  {
    if StartsFamily(StrFamily, b[0]) then
      match ReadRaw(StrFamily, b) case Fail => Fail case Done(s, rest) => Done(Str(s), rest)
    else if StartsFamily(BinFamily, b[0]) then
      match ReadRaw(BinFamily, b) case Fail => Fail case Done(s, rest) => Done(Bin(s), rest)
    else if b[0] == 0xc0 then Done(Nil, b[1..])
    else if b[0] == 0xc2 then Done(Bool(false), b[1..])
    else if b[0] == 0xc3 then Done(Bool(true), b[1..])
    else if b[0] == 0xca then
      match ReadSized(b[1..], 4) case Fail => Fail case Done(s, rest) => Done(Float32(s), rest)
    else if b[0] == 0xcb then
      match ReadSized(b[1..], 8) case Fail => Fail case Done(s, rest) => Done(Float64(s), rest)
    else
      match ReadNumber(b)
      case Fail => Fail
      case Done(Signed(i), rest) =>
        if -0x8000_0000_0000_0000 <= i < 0x8000_0000_0000_0000 then Done(Int(i as int64), rest) else Fail
      case Done(Unsigned(u), rest) =>
        if u < 0x1_0000_0000_0000_0000 then Done(Uint(u as uint64), rest) else Fail
  }

  /** Reads n values behind the ones in `vs`. */
  function ReadVals(n: nat, b: Bytes, vs: seq<Val>): (p: Parse<seq<Val>>)
    ensures p.Done? ==> |p.rest| <= |b| && |p.value| == |vs| + n
    decreases |b|, 1, n
  {
    if n == 0 then Done(vs, b)
    else match ReadVal(b)
      case Fail => Fail
      case Done(v, rest) => ReadVals(n - 1, rest, vs + [v])
  }

  /** Reads n keys and values into a map, later entries replacing earlier ones. */
  function ReadEntries(n: nat, b: Bytes, m: map<Bytes, Val>): (p: Parse<map<Bytes, Val>>)
    ensures p.Done? ==> |p.rest| <= |b|
    decreases |b|, 1, n
  {
    if n == 0 then Done(m, b)
    else match ReadRaw(StrFamily, b)
      case Fail => Fail
      case Done(k, rest) =>
        match ReadVal(rest)
        case Fail => Fail
        case Done(v, rest') => ReadEntries(n - 1, rest', m[k := v])
  }

  // ---- What a document means ----

  function ValueOf(d: Doc): Val {
    match d
    case Atom(v) => v
    case ArrDoc(ds) => Arr(ValuesOf(ds))
    case MapDoc(es) => Map(Overlay(map[], es))
  }

  function ValuesOf(ds: seq<Doc>): (vs: seq<Val>)
    ensures |vs| == |ds|
  {
    if ds == [] then [] else [ValueOf(ds[0])] + ValuesOf(ds[1..])
  }

  function Overlay(m: map<Bytes, Val>, es: seq<Entry>): map<Bytes, Val>
    decreases es
  {
    if es == [] then m else Overlay(m[es[0].key := ValueOf(es[0].val)], es[1..])
  }

  /** An unsigned number below 128 comes back as a signed one: both kinds share the fixint form. */
  function Settle(v: Val): Val {
    match v
    case Uint(u) => if u <= 0x7f then Int(u as int64) else v
    case Arr(vs) => Arr(SettleAll(vs))
    case Map(m) => Map(map k | k in m :: Settle(m[k]))
    case _ => v
  }

  function SettleAll(vs: seq<Val>): (r: seq<Val>)
    ensures |r| == |vs| && forall i :: 0 <= i < |vs| ==> r[i] == Settle(vs[i])
  {
    if vs == [] then [] else [Settle(vs[0])] + SettleAll(vs[1..])
  }

  function SettleMap(m: map<Bytes, Val>): map<Bytes, Val> {
    map k | k in m :: Settle(m[k])
  }

  predicate NoSmallUint(v: Val) {
    match v
    case Uint(u) => u > 0x7f
    case Arr(vs) => forall i :: 0 <= i < |vs| ==> NoSmallUint(vs[i])
    case Map(m) => forall k :: k in m ==> NoSmallUint(m[k])
    case _ => true
  }

  lemma {:induction false} SettlesIff(v: Val)
    ensures Settle(v) == v <==> NoSmallUint(v)
  {
    match v {
      case Arr(vs) =>
        forall i | 0 <= i < |vs| ensures Settle(vs[i]) == vs[i] <==> NoSmallUint(vs[i]) { SettlesIff(vs[i]); }
        assert SettleAll(vs) == vs <==> forall i :: 0 <= i < |vs| ==> Settle(vs[i]) == vs[i];
      case Map(m) =>
        forall k | k in m ensures Settle(m[k]) == m[k] <==> NoSmallUint(m[k]) { SettlesIff(m[k]); }
        var m' := map k | k in m :: Settle(m[k]);
        assert m' == m <==> forall k :: k in m ==> m'[k] == m[k];
      case _ =>
    }
  }

  // ---- Round trip of values ----

  predicate NumberTag(t: byte) {
    t <= 0x7f || t >= 0xe0 || 0xcc <= t <= 0xcf || 0xd0 <= t <= 0xd3
  }

  lemma FirstOfInt(i: int64)
    ensures NumberTag(IntBytes(i)[0])
  {
  }

  lemma FirstOfUint(u: uint64)
    ensures NumberTag(UintBytes(u)[0])
  {
  }

  lemma ReadsNumberVal(b: Bytes, num: Number, rest: Bytes)
    requires b != [] && NumberTag(b[0]) && ReadNumber(b) == Done(num, rest)
    requires num.Signed? ==> -0x8000_0000_0000_0000 <= num.i < 0x8000_0000_0000_0000
    requires num.Unsigned? ==> num.u < 0x1_0000_0000_0000_0000
    ensures ReadVal(b) == Done(if num.Signed? then Int(num.i as int64) else Uint(num.u as uint64), rest)
  {
    hide ReadNumber;
  }

  lemma ReadsStrVal(f: Family, s: Bytes, rest: Bytes)
    requires (f.StrFamily? || f.BinFamily?) && |s| < MAX_LENGTH
    ensures ReadVal(RawBytes(f, s) + rest) == Done(if f.StrFamily? then Str(s) else Bin(s), rest)
  {
    ReadsRaw(f, s, rest);
    var b := RawBytes(f, s) + rest;
    assert b[0] == RawBytes(f, s)[0];
    hide ReadRaw;
    hide RawBytes;
  }

  lemma ReadsFloatVal(tag: byte, bits: Bytes, rest: Bytes)
    requires (tag == 0xca && |bits| == 4) || (tag == 0xcb && |bits| == 8)
    ensures ReadVal([tag] + bits + rest) == Done(if tag == 0xca then Float32(bits) else Float64(bits), rest)
  {
    var b := [tag] + bits + rest;
    assert b[1..] == bits + rest;
    assert b[1..][..|bits|] == bits && b[1..][|bits|..] == rest;
  }

  lemma ScalarRoundTrip(v: Val, rest: Bytes)
    requires Scalar(v)
    ensures ReadVal(ScalarBytes(v) + rest) == Done(Settle(v), rest)
  {
    match v {
      case Int(i) =>
        FirstOfInt(i);
        ReadsInt(i, rest);
        ReadsNumberVal(IntBytes(i) + rest, Signed(i as int), rest);
      case Uint(u) =>
        FirstOfUint(u);
        ReadsUint(u, rest);
        ReadsNumberVal(UintBytes(u) + rest, if u <= 0x7f then Signed(u as int) else Unsigned(u as nat), rest);
      case Float32(bits) => ReadsFloatVal(0xca, bits, rest);
      case Float64(bits) => ReadsFloatVal(0xcb, bits, rest);
      case Str(s) => ReadsStrVal(StrFamily, s, rest);
      case Bin(s) => ReadsStrVal(BinFamily, s, rest);
      case _ => ReadsConstant(v, rest);
    }
  }

  lemma ReadsConstant(v: Val, rest: Bytes)
    requires v.Nil? || v.Bool?
    ensures ReadVal(ScalarBytes(v) + rest) == Done(v, rest)
  {
    assert (ScalarBytes(v) + rest)[1..] == rest;
  }

  lemma Regroup(a: Bytes, b: Bytes, c: Bytes, d: Bytes)
    ensures a + b + c + d == a + (b + (c + d))
    ensures a + b + d == a + (b + d)
  {
  }

  lemma ReadArrStep(b: Bytes, n: nat, mid: Bytes, vs: seq<Val>, rest: Bytes)
    requires b != [] && StartsFamily(ArrFamily, b[0]) && ReadHeader(ArrFamily, b) == Done(n, mid)
    requires ReadVals(n, mid, []) == Done(vs, rest)
    ensures ReadVal(b) == Done(Arr(vs), rest)
  {
  }

  lemma ReadMapStep(b: Bytes, n: nat, mid: Bytes, m: map<Bytes, Val>, rest: Bytes)
    requires b != [] && StartsFamily(MapFamily, b[0]) && ReadHeader(MapFamily, b) == Done(n, mid)
    requires ReadEntries(n, mid, map[]) == Done(m, rest)
    ensures ReadVal(b) == Done(Map(m), rest)
  {
  }

  /** Decoding the encoding of a value followed by anything gives the value and exactly the rest, for
      every order in which its maps were walked. */
  lemma {:induction false} RoundTrip(d: Doc, rest: Bytes)
    requires Fits(d)
    ensures ReadVal(Encode(d) + rest) == Done(Settle(ValueOf(d)), rest)
    decreases d, 0
  {
    match d {
      case Atom(v) => ScalarRoundTrip(v, rest);
      case ArrDoc(ds) =>
        RoundTripAll(ds, [], rest);
        assert [] + SettleAll(ValuesOf(ds)) == SettleAll(ValuesOf(ds));
        ReadsHeader(ArrFamily, |ds|, EncodeAll(ds) + rest);
        Regroup(Header(ArrFamily, |ds|), EncodeAll(ds), [], rest);
        ReadArrStep(Encode(d) + rest, |ds|, EncodeAll(ds) + rest, SettleAll(ValuesOf(ds)), rest);
      case MapDoc(es) =>
        RoundTripEntries(es, map[], rest);
        assert SettleMap(map[]) == map[];
        ReadsHeader(MapFamily, |es|, EncodeEntries(es) + rest);
        Regroup(Header(MapFamily, |es|), EncodeEntries(es), [], rest);
        ReadMapStep(Encode(d) + rest, |es|, EncodeEntries(es) + rest, SettleMap(Overlay(map[], es)), rest);
    }
  }

  lemma ReadValsStep(n: nat, b: Bytes, v: Val, mid: Bytes, vs: seq<Val>)
    requires ReadVal(b) == Done(v, mid)
    ensures ReadVals(n + 1, b, vs) == ReadVals(n, mid, vs + [v])
  {
  }

  lemma {:induction false} RoundTripAll(ds: seq<Doc>, vs: seq<Val>, rest: Bytes)
    requires forall i :: 0 <= i < |ds| ==> Fits(ds[i])
    ensures ReadVals(|ds|, EncodeAll(ds) + rest, vs) == Done(vs + SettleAll(ValuesOf(ds)), rest)
    decreases ds, 1
  {
    if ds == [] {
      assert EncodeAll(ds) + rest == rest;
      assert vs + [] == vs;
    } else {
      var behind := EncodeAll(ds[1..]) + rest;
      var v, w := ValueOf(ds[0]), SettleAll(ValuesOf(ds[1..]));
      RoundTrip(ds[0], behind);
      EncodeAllCons(ds, rest);
      ReadValsStep(|ds| - 1, EncodeAll(ds) + rest, Settle(v), behind, vs);
      RoundTripAll(ds[1..], vs + [Settle(v)], rest);
      SettleAllCons(v, ValuesOf(ds[1..]));
      Shift(vs, Settle(v), w);
    }
  }

  lemma EncodeAllCons(ds: seq<Doc>, rest: Bytes)
    requires ds != [] && forall i :: 0 <= i < |ds| ==> Fits(ds[i])
    ensures forall i :: 0 <= i < |ds[1..]| ==> Fits(ds[1..][i])
    ensures EncodeAll(ds) + rest == Encode(ds[0]) + (EncodeAll(ds[1..]) + rest)
  {
    Regroup(Encode(ds[0]), EncodeAll(ds[1..]), [], rest);
  }

  lemma Shift<T>(a: seq<T>, x: T, b: seq<T>)
    ensures (a + [x]) + b == a + ([x] + b)
  {
  }

  lemma SettleAllCons(v: Val, vs: seq<Val>)
    ensures SettleAll([v] + vs) == [Settle(v)] + SettleAll(vs)
  {
    assert ([v] + vs)[1..] == vs;
  }

  lemma ReadEntriesStep(n: nat, b: Bytes, k: Bytes, mid: Bytes, v: Val, behind: Bytes, m: map<Bytes, Val>)
    requires ReadRaw(StrFamily, b) == Done(k, mid) && ReadVal(mid) == Done(v, behind)
    ensures ReadEntries(n + 1, b, m) == ReadEntries(n, behind, m[k := v])
  {
  }

  /** The first entry and the bytes behind it. */
  lemma EncodeEntriesCons(es: seq<Entry>, rest: Bytes)
    requires FitEntries(es) && es != []
    ensures FitEntries(es[1..]) && |es[0].key| < MAX_LENGTH && Fits(es[0].val)
    ensures EncodeEntries(es) + rest
      == RawBytes(StrFamily, es[0].key) + (Encode(es[0].val) + (EncodeEntries(es[1..]) + rest))
  {
    assert forall i :: 0 <= i < |es[1..]| ==> es[1..][i] == es[i + 1];
    Regroup(RawBytes(StrFamily, es[0].key), Encode(es[0].val), EncodeEntries(es[1..]), rest);
  }

  lemma SettleMapUpdate(m: map<Bytes, Val>, k: Bytes, v: Val)
    ensures SettleMap(m[k := v]) == SettleMap(m)[k := Settle(v)]
  {
  }

  lemma {:induction false} RoundTripEntries(es: seq<Entry>, m: map<Bytes, Val>, rest: Bytes)
    requires FitEntries(es)
    ensures ReadEntries(|es|, EncodeEntries(es) + rest, SettleMap(m)) == Done(SettleMap(Overlay(m, es)), rest)
    decreases es, 1
  {
    if es == [] {
      assert EncodeEntries(es) + rest == rest;
    } else {
      var k, v := es[0].key, ValueOf(es[0].val);
      EncodeEntriesCons(es, rest);
      var behind := EncodeEntries(es[1..]) + rest;
      var mid := Encode(es[0].val) + behind;
      ReadsRaw(StrFamily, k, mid);
      RoundTrip(es[0].val, behind);
      ReadEntriesStep(|es| - 1, EncodeEntries(es) + rest, k, mid, Settle(v), behind, SettleMap(m));
      SettleMapUpdate(m, k, v);
      RoundTripEntries(es[1..], m[k := v], rest);
    }
  }

  /** A value survives unchanged exactly when no small unsigned number is in it. */
  lemma RoundTripIff(d: Doc, rest: Bytes)
    requires Fits(d)
    ensures ReadVal(Encode(d) + rest) == Done(ValueOf(d), rest) <==> NoSmallUint(ValueOf(d))
  {
    RoundTrip(d, rest);
    SettlesIff(ValueOf(d));
  }

  // ---- Encoding a value, map by map, in whatever order the runtime walks them ----

  predicate FitsVal(v: Val) {
    match v
    case Arr(vs) => |vs| < MAX_LENGTH && forall i :: 0 <= i < |vs| ==> FitsVal(vs[i])
    case Map(m) => |m| < MAX_LENGTH && forall k :: k in m ==> |k| < MAX_LENGTH && FitsVal(m[k])
    case _ => Scalar(v)
  }

  lemma {:induction false} EncodeAllSnoc(ds: seq<Doc>, d: Doc)
    requires Fits(d) && forall i :: 0 <= i < |ds| ==> Fits(ds[i])
    ensures forall i :: 0 <= i < |ds + [d]| ==> Fits((ds + [d])[i])
    ensures EncodeAll(ds + [d]) == EncodeAll(ds) + Encode(d)
    ensures ValuesOf(ds + [d]) == ValuesOf(ds) + [ValueOf(d)]
  {
    if ds == [] {
      assert [] + [d] == [d];
    } else {
      EncodeAllSnoc(ds[1..], d);
      assert (ds + [d])[1..] == ds[1..] + [d];
      Regroup(Encode(ds[0]), EncodeAll(ds[1..]), [], Encode(d));
    }
  }

  lemma {:induction false} OverlaySnoc(m: map<Bytes, Val>, es: seq<Entry>, e: Entry)
    ensures Overlay(m, es + [e]) == Overlay(m, es)[e.key := ValueOf(e.val)]
    decreases es
  {
    if es == [] {
      assert [] + [e] == [e];
    } else {
      OverlaySnoc(m[es[0].key := ValueOf(es[0].val)], es[1..], e);
      assert (es + [e])[1..] == es[1..] + [e];
    }
  }

  lemma {:induction false} EncodeEntriesSnoc(es: seq<Entry>, e: Entry)
    requires FitEntries(es) && |e.key| < MAX_LENGTH && Fits(e.val)
    ensures FitEntries(es + [e])
    ensures EncodeEntries(es + [e]) == EncodeEntries(es) + (RawBytes(StrFamily, e.key) + Encode(e.val))
  {
    if es == [] {
      assert [] + [e] == [e];
    } else {
      EncodeEntriesSnoc(es[1..], e);
      assert (es + [e])[1..] == es[1..] + [e];
      Regroup(RawBytes(StrFamily, es[0].key), Encode(es[0].val), EncodeEntries(es[1..]),
              RawBytes(StrFamily, e.key) + Encode(e.val));
      Regroup(RawBytes(StrFamily, es[0].key), Encode(es[0].val), [],
              EncodeEntries(es[1..]) + (RawBytes(StrFamily, e.key) + Encode(e.val)));
    }
  }

  /** msgp.AppendIntf: `d` is the value with the order its maps happened to be walked in. */
  method AppendIntf(b: Bytes, v: Val) returns (o: Bytes, ghost d: Doc)
    requires FitsVal(v)
    ensures Fits(d) && ValueOf(d) == v
    ensures o == b + Encode(d)
    decreases v, 2
  {
    match v {
      case Arr(vs) =>
        ghost var ds;
        o, ds := AppendAll(b + Header(ArrFamily, |vs|), vs);
        d := ArrDoc(ds);
        Regroup(b, Header(ArrFamily, |vs|), [], EncodeAll(ds));
      case Map(m) =>
        ghost var es;
        o, es := AppendEntries(b + Header(MapFamily, |m|), m);
        d := MapDoc(es);
        Regroup(b, Header(MapFamily, |m|), [], EncodeEntries(es));
      case _ =>
        o, d := b + ScalarBytes(v), Atom(v);
    }
  }

  method AppendAll(b: Bytes, vs: seq<Val>) returns (o: Bytes, ghost ds: seq<Doc>)
    requires |vs| < MAX_LENGTH && forall i :: 0 <= i < |vs| ==> FitsVal(vs[i])
    ensures |ds| == |vs| && forall j :: 0 <= j < |ds| ==> Fits(ds[j])
    ensures ValuesOf(ds) == vs
    ensures o == b + EncodeAll(ds)
    decreases Arr(vs), 1
  {
    o, ds := b, [];
    NoElements(b);
    hide Encode;
    hide EncodeAll;
    hide ValuesOf;
    hide Fits;
    for i := 0 to |vs|
      invariant |ds| == i && forall j :: 0 <= j < |ds| ==> Fits(ds[j])
      invariant ValuesOf(ds) == vs[..i]
      invariant o == b + EncodeAll(ds)
    {
      ghost var e;
      o, e := AppendIntf(o, vs[i]);
      ElementAppended(b, ds, e);
      ds := ds + [e];
      assert vs[..i + 1] == vs[..i] + [vs[i]];
    }
    assert vs[..|vs|] == vs;
  }

  lemma NoElements(b: Bytes)
    ensures b == b + EncodeAll([]) && ValuesOf([]) == []
  {
  }

  lemma ElementAppended(b: Bytes, ds: seq<Doc>, e: Doc)
    requires Fits(e) && forall j :: 0 <= j < |ds| ==> Fits(ds[j])
    ensures forall j :: 0 <= j < |ds| + 1 ==> Fits((ds + [e])[j])
    ensures b + EncodeAll(ds) + Encode(e) == b + EncodeAll(ds + [e])
    ensures ValuesOf(ds + [e]) == ValuesOf(ds) + [ValueOf(e)]
  {
    EncodeAllSnoc(ds, e);
    Regroup(b, EncodeAll(ds), [], Encode(e));
  }

  /** The loop over a map: every key is visited once, in an order the runtime chooses. */
  method AppendEntries(b: Bytes, m: map<Bytes, Val>) returns (o: Bytes, ghost es: seq<Entry>)
    requires |m| < MAX_LENGTH && forall k :: k in m ==> |k| < MAX_LENGTH && FitsVal(m[k])
    ensures FitEntries(es) && |es| == |m| && Overlay(map[], es) == m
    ensures o == b + EncodeEntries(es)
    decreases Map(m), 1
  {
    o, es := b, [];
    var todo := m.Keys;
    NoEntries(b);
    hide EncodeEntries;
    hide Encode;
    hide FitEntries;
    hide Overlay;
    hide RawBytes;
    while todo != {}
      invariant todo <= m.Keys && |es| + |todo| == |m| && FitEntries(es)
      invariant Overlay(map[], es) == map k | k in m && k !in todo :: m[k]
      invariant o == b + EncodeEntries(es)
      decreases todo
    {
      var k :| k in todo;
      o := o + RawBytes(StrFamily, k);
      ghost var e;
      o, e := AppendIntf(o, m[k]);
      EntryAppended(b, es, k, e);
      OverlaySnoc(map[], es, Entry(k, e));
      es := es + [Entry(k, e)];
      todo := todo - {k};
    }
  }

  lemma NoEntries(b: Bytes)
    ensures FitEntries([]) && b == b + EncodeEntries([])
    ensures Overlay(map[], []) == map[]
  {
  }

  lemma EntryAppended(b: Bytes, es: seq<Entry>, k: Bytes, e: Doc)
    requires FitEntries(es) && |k| < MAX_LENGTH && Fits(e)
    ensures FitEntries(es + [Entry(k, e)])
    ensures b + EncodeEntries(es) + RawBytes(StrFamily, k) + Encode(e) == b + EncodeEntries(es + [Entry(k, e)])
  {
    EncodeEntriesSnoc(es, Entry(k, e));
    Regroup(b, EncodeEntries(es), RawBytes(StrFamily, k), Encode(e));
    Regroup(b, EncodeEntries(es), [], RawBytes(StrFamily, k) + Encode(e));
  }
}
