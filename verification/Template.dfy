/** `${var}` templates: library/utils.go rewrites the whole string once per variable found. */
module Template {
  import opened Options

  /** The dynamic types the switch handles; a float is given by its shortest decimal text. */
  datatype Value = Text(s: string) | Bytes(s: string) | Int(n: int) | Int64(n: int) | Float64(text: string) | Other

  type Data = map<string, Value>

  // ---- The library calls the loop is built from ----

  function Digits(n: nat): string {
    if n < 10 then ["0123456789"[n]] else Digits(n / 10) + ["0123456789"[n % 10]]
  }

  function FormatInt(n: int): string {
    if n < 0 then "-" + Digits(-n) else Digits(n)
  }

  /** The text the switch assigns for `k`; None when the key is missing or its type is not handled. */
  function Lookup(data: Data, k: string): Option<string> {
    if k !in data then None
    else match data[k]
      case Text(s) => Some(s)
      case Bytes(s) => Some(s)
      case Int(n) => Some(FormatInt(n))
      case Int64(n) => Some(FormatInt(n))
      case Float64(text) => Some(text)
      case Other => None
  }

  function Mark(k: string): string {
    "${" + k + "}"
  }

  /** strings.ReplaceAll for a non-empty pattern: leftmost, not overlapping. */
  function ReplaceAll(s: string, old_: string, new_: string): string
    requires old_ != ""
  {
    if |s| < |old_| then s
    else if old_ <= s then new_ + ReplaceAll(s[|old_|..], old_, new_)
    else [s[0]] + ReplaceAll(s[1..], old_, new_)
  }

  function UpToBrace(s: string): (n: nat)
    ensures n <= |s| && '}' !in s[..n] && (n < |s| ==> s[n] == '}')
  {
    if s == "" || s[0] == '}' then 0 else 1 + UpToBrace(s[1..])
  }

  /** The key of a match of \$\{([^}]+)\} at the start of `s`. */
  function KeyAtStart(s: string): (k: Option<string>)
    ensures k.Some? ==> k.value != "" && Mark(k.value) <= s
  {
    if "${" <= s then
      var n := UpToBrace(s[2..]);
      if 0 < n && n + 2 < |s| then
        assert Mark(s[2..n + 2]) == s[..n + 3];
        Some(s[2..n + 2])
      else None
    else None
  }

  /** The first groups of all matches, leftmost first: FindAllStringSubmatch(tpl, -1). */
  function FindAll(s: string): (ks: seq<string>)
    ensures forall k :: k in ks ==> k != ""
  {
    if s == "" then []
    else match KeyAtStart(s)
      case Some(k) => [k] + FindAll(s[|k| + 3..])
      case None => FindAll(s[1..])
  }

  // ---- The loop ----

  /** The value of `vs` after the loop has visited `ks`: the text of the last key with a handled
      value, since a missing key leaves the variable as it was. */
  function LastText(ks: seq<string>, data: Data): string {
    if ks == [] then ""
    else match Lookup(data, ks[|ks| - 1])
      case Some(t) => t
      case None => LastText(ks[..|ks| - 1], data)
  }

  /** The template after the loop has visited `ks`. */
  function Rewrite(ks: seq<string>, data: Data, tpl: string): string {
    if ks == [] then tpl
    else ReplaceAll(Rewrite(ks[..|ks| - 1], data, tpl), Mark(ks[|ks| - 1]), LastText(ks, data))
  }

  method TemplateWithMap(template: string, data: Data) returns (tpl: string)
    ensures tpl == Rewrite(FindAll(template), data, template)
  {
    tpl := template;
    var vs := "";
    var ks := FindAll(template);
    for i := 0 to |ks|
      invariant vs == LastText(ks[..i], data)
      invariant tpl == Rewrite(ks[..i], data, template)
    {
      var k := ks[i];
      assert ks[..i + 1][..i] == ks[..i];
      if k in data {
        match data[k] {
          case Text(s) => vs := s;
          case Bytes(s) => vs := s;
          case Int(n) => vs := FormatInt(n);
          case Int64(n) => vs := FormatInt(n);
          case Float64(text) => vs := text;
          case Other =>
        }
      }
      tpl := ReplaceAll(tpl, Mark(k), vs);
    }
    assert ks[..|ks|] == ks;
  }

  // ---- What these calls are, for all strings ----

  /** The value of a string of digits. */
  function ValueOf(s: string): int {
    if s == "" then 0 else 10 * ValueOf(s[..|s| - 1]) + (s[|s| - 1] as int - '0' as int)
  }

  /** The decimal digits of a number: only digits, none superfluous, and their value is the number. */
  lemma {:induction false} DigitsAre(n: nat)
    ensures ValueOf(Digits(n)) == n && Digits(n) != "" && (Digits(n)[0] == '0' ==> Digits(n) == "0")
    ensures forall i :: 0 <= i < |Digits(n)| ==> '0' <= Digits(n)[i] <= '9'
  {
    assert ValueOf("0") == 0;
    if n >= 10 {
      DigitsAre(n / 10);
      DigitIs(n % 10);
      var s := Digits(n);
      assert s[..|s| - 1] == Digits(n / 10) && s[0] == Digits(n / 10)[0];
    } else {
      DigitIs(n);
      assert Digits(n)[..0] == "";
    }
  }

  lemma DigitIs(n: nat)
    requires n < 10
    ensures "0123456789"[n] as int == '0' as int + n
  {
  }

  /** Strings and byte slices stand for themselves, numbers for their decimal digits with a sign if negative; a
      missing key and any other type have no text. */
  lemma LookupIs(data: Data, k: string)
    ensures k !in data ==> Lookup(data, k) == None
    ensures k in data ==>
              match data[k]
              case Text(s) => Lookup(data, k) == Some(s)
              case Bytes(s) => Lookup(data, k) == Some(s)
              case Int(n) => Lookup(data, k) == Some(if n < 0 then "-" + Digits(-n) else Digits(n))
              case Int64(n) => Lookup(data, k) == Some(if n < 0 then "-" + Digits(-n) else Digits(n))
              case Float64(text) => Lookup(data, k) == Some(text)
              case Other => Lookup(data, k) == None
  {
  }

  ghost predicate OccursAt(s: string, i: nat, p: string)
    requires i <= |s|
  {
    p <= s[i..]
  }

  lemma ReplacesHere(s: string, old_: string, new_: string)
    requires old_ != ""
    ensures s == "" ==> ReplaceAll(s, old_, new_) == ""
    ensures old_ <= s ==> ReplaceAll(s, old_, new_) == new_ + ReplaceAll(s[|old_|..], old_, new_)
  {
  }

  /** What does not occur in the whole does not occur behind the first character either. */
  lemma NotBehind(x: char, a: string, rest: string, p: string)
    requires forall i :: 0 <= i < |a| + 1 ==> !OccursAt([x] + (a + rest), i, p)
    ensures !(p <= [x] + (a + rest)) && forall i :: 0 <= i < |a| ==> !OccursAt(a + rest, i, p)
  {
    var s := [x] + (a + rest);
    assert s[0..] == s && !OccursAt(s, 0, p);
    forall i | 0 <= i < |a| ensures !OccursAt(a + rest, i, p) {
      assert !OccursAt(s, i + 1, p);
      assert s[i + 1..] == (a + rest)[i..];
    }
  }

  /** ReplaceAll puts the new text in the place of the first occurrence and goes on behind it; without one it leaves the
      string as it is. */
  lemma {:induction false} ReplacesFirst(a: string, rest: string, old_: string, new_: string)
    requires old_ != "" && forall i :: 0 <= i < |a| ==> !OccursAt(a + rest, i, old_)
    ensures rest == "" ==> ReplaceAll(a + rest, old_, new_) == a
    ensures old_ <= rest ==> ReplaceAll(a + rest, old_, new_) == a + new_ + ReplaceAll(rest[|old_|..], old_, new_)
    decreases |a|
  {
    hide OccursAt;
    hide ReplaceAll;
    if a == "" {
      assert a + rest == rest;
      ReplacesHere(rest, old_, new_);
    } else {
      var x, tail := a[0], a[1..];
      assert a + rest == [x] + (tail + rest);
      NotBehind(x, tail, rest, old_);
      ReplacesFirst(tail, rest, old_, new_);
      SkipMiss(x, tail + rest, old_, new_);
      hide *;
      assert a == [x] + tail;
    }
  }

  ghost predicate MatchAt(s: string, i: nat, k: string)
    requires i <= |s|
  {
    k != "" && '}' !in k && Mark(k) <= s[i..]
  }

  /** A match begins here iff there is a mark with a key of at least one character and no brace. */
  lemma KeyAtStartIff(s: string, k: string)
    ensures KeyAtStart(s) == Some(k) <==> k != "" && '}' !in k && Mark(k) <= s
  {
    if k != "" && '}' !in k && Mark(k) <= s {
      assert Mark(k) == s[..|k| + 3];
      assert s[..2] == Mark(k)[..2] == "${";
      assert s[2..|k| + 2] == Mark(k)[2..|k| + 2] == k && s[|k| + 2] == Mark(k)[|k| + 2] == '}';
      FirstBrace(s[2..], |k|);
    }
    if KeyAtStart(s) == Some(k) {
      assert '}' !in s[2..][..UpToBrace(s[2..])];
      assert s[2..][..UpToBrace(s[2..])] == s[2..UpToBrace(s[2..]) + 2];
    }
  }

  lemma {:induction false} FirstBrace(s: string, n: nat)
    requires n < |s| && s[n] == '}' && '}' !in s[..n]
    ensures UpToBrace(s) == n
    decreases n
  {
    if n > 0 {
      assert s[..n] == [s[0]] + s[1..][..n - 1];
      FirstBrace(s[1..], n - 1);
    }
  }

  lemma MarkLength(k: string)
    ensures |Mark(k)| == |k| + 3
  {
  }

  lemma FindsKeyHere(s: string, k: string)
    requires k != "" && '}' !in k && Mark(k) <= s
    ensures |k| + 3 <= |s| && FindAll(s) == [k] + FindAll(s[|k| + 3..])
  {
    MarkLength(k);
    hide *;
    KeyAtStartIff(s, k);
    FindAllIs(s);
  }

  lemma KeyIsMatch(s: string)
    ensures KeyAtStart(s).Some? ==> MatchAt(s, 0, KeyAtStart(s).value)
  {
    if KeyAtStart(s).Some? {
      KeyAtStartIff(s, KeyAtStart(s).value);
      assert s[0..] == s;
    }
  }

  lemma FindsNoneHere(s: string)
    requires s != "" && forall k :: !MatchAt(s, 0, k)
    ensures FindAll(s) == FindAll(s[1..])
  {
    KeyIsMatch(s);
    hide *;
    FindAllIs(s);
  }

  lemma FindAllIs(s: string)
    ensures s == "" ==> FindAll(s) == []
    ensures s != "" && KeyAtStart(s) == None ==> FindAll(s) == FindAll(s[1..])
    ensures KeyAtStart(s).Some? ==>
              |KeyAtStart(s).value| + 3 <= |s|
              && FindAll(s) == [KeyAtStart(s).value] + FindAll(s[|KeyAtStart(s).value| + 3..])
  {
  }

  lemma NoMatchBehind(x: char, a: string, rest: string)
    requires forall i, k :: 0 <= i < |a| + 1 ==> !MatchAt([x] + (a + rest), i, k)
    ensures (forall k :: !MatchAt([x] + (a + rest), 0, k)) && forall i, k :: 0 <= i < |a| ==> !MatchAt(a + rest, i, k)
  {
    var s := [x] + (a + rest);
    forall i, k | 0 <= i < |a| ensures !MatchAt(a + rest, i, k) {
      assert !MatchAt(s, i + 1, k);
      assert s[i + 1..] == (a + rest)[i..];
    }
  }

  /** The keys found are those of the matches from left to right: the first one, then those behind it. */
  lemma {:induction false} FindsFirst(a: string, rest: string)
    requires forall i, k :: 0 <= i < |a| ==> !MatchAt(a + rest, i, k)
    ensures rest == "" ==> FindAll(a + rest) == []
    ensures forall k :: k != "" && '}' !in k && Mark(k) <= rest ==>
              FindAll(a + rest) == [k] + FindAll(rest[|k| + 3..])
    decreases |a|
  {
    hide FindAll;
    hide MatchAt;
    hide Mark;
    if a == "" {
      assert a + rest == rest;
      FindAllIs(rest);
      forall k | k != "" && '}' !in k && Mark(k) <= rest
        ensures |k| + 3 <= |rest| && FindAll(rest) == [k] + FindAll(rest[|k| + 3..])
      {
        FindsKeyHere(rest, k);
      }
    } else {
      var x, tail := a[0], a[1..];
      assert a + rest == [x] + (tail + rest);
      assert (a + rest)[1..] == tail + rest;
      NoMatchBehind(x, tail, rest);
      FindsNoneHere(a + rest);
      FindsFirst(tail, rest);
    }
  }

  /** The carried text is that of the last key visited that has one, and empty before the first. */
  lemma {:induction false} LastTextIs(ks: seq<string>, data: Data, i: nat)
    requires i <= |ks| && forall j :: i <= j < |ks| ==> Lookup(data, ks[j]) == None
    ensures i == 0 ==> LastText(ks, data) == ""
    ensures i > 0 && Lookup(data, ks[i - 1]).Some? ==> LastText(ks, data) == Lookup(data, ks[i - 1]).value
    decreases |ks|
  {
    if i < |ks| { LastTextIs(ks[..|ks| - 1], data, i); }
  }

  // ---- One-pass substitution ----

  datatype Token = Lit(text: string) | Var(key: string)

  function Spelling(t: Token): string {
    match t
    case Lit(text) => text
    case Var(key) => Mark(key)
  }

  function Render(ts: seq<Token>): string {
    if ts == [] then "" else Spelling(ts[0]) + Render(ts[1..])
  }

  function Keys(ts: seq<Token>): seq<string> {
    if ts == [] then []
    else (if ts[0].Lit? then [] else [ts[0].key]) + Keys(ts[1..])
  }

  /** Replaces the variables that `m` has a text for and keeps the others. */
  function Subst(ts: seq<Token>, m: map<string, string>): (r: seq<Token>)
    ensures |r| == |ts|
  {
    if ts == [] then []
    else [if ts[0].Var? && ts[0].key in m then Lit(m[ts[0].key]) else ts[0]] + Subst(ts[1..], m)
  }

  /** Nothing in the text begins a mark, nor does its end: each `$` is followed by something other than `{`. */
  predicate Settled(text: string) {
    text == "" || ((text[0] == '$' ==> |text| > 1 && text[1] != '{') && Settled(text[1..]))
  }

  predicate Plain(t: Token) {
    match t
    case Lit(text) => Settled(text)
    case Var(key) => key != "" && '$' !in key && '}' !in key
  }

  ghost predicate AllPlain(ts: seq<Token>) {
    forall i :: 0 <= i < |ts| ==> Plain(ts[i])
  }

  /** What the loop really puts in the place of each variable: the `vs` in force at its first occurrence. */
  function Carried(ks: seq<string>, data: Data): (m: map<string, string>)
    ensures forall k :: k in m <==> k in ks
  {
    if ks == [] then map[]
    else
      var k, m := ks[|ks| - 1], Carried(ks[..|ks| - 1], data);
      assert ks == ks[..|ks| - 1] + [k];
      if k in m then m else m[k := LastText(ks, data)]
  }

  function TextOf(data: Data, k: string): string {
    match Lookup(data, k) case Some(t) => t case None => ""
  }

  /** What the template language promises: the value, and nothing for a key that has none. */
  function Promised(ks: seq<string>, data: Data): map<string, string> {
    map k | k in ks :: TextOf(data, k)
  }

  lemma {:induction false} NoDollar(text: string)
    requires '$' !in text
    ensures Settled(text)
  {
    if text != "" { NoDollar(text[1..]); }
  }

  /** ReplaceAll copies settled text and goes on behind it. */
  lemma {:induction false} SkipPlain(text: string, rest: string, k: string, v: string)
    requires Settled(text)
    ensures ReplaceAll(text + rest, Mark(k), v) == text + ReplaceAll(rest, Mark(k), v)
  {
    hide ReplaceAll;
    hide Mark;
    if text == "" {
      assert text + rest == rest;
      MarkSome(k);
      assert text + ReplaceAll(rest, Mark(k), v) == ReplaceAll(rest, Mark(k), v);
    } else {
      MarkSome(k);
      var tail := text[1..];
      SkipPlain(tail, rest, k, v);
      assert text == [text[0]] + tail;
      assert |text| > 1 ==> (tail + rest)[0] == text[1];
      SkipOne(text[0], tail + rest, k, v);
      hide Settled;
      Regroup([text[0]], tail, rest);
      Regroup([text[0]], tail, ReplaceAll(rest, Mark(k), v));
    }
  }

  lemma SkipOne(c: char, rest: string, k: string, v: string)
    requires c != '$' || (rest != "" && rest[0] != '{')
    ensures ReplaceAll([c] + rest, Mark(k), v) == [c] + ReplaceAll(rest, Mark(k), v)
  {
    var s := [c] + rest;
    assert s[1..] == rest;
    assert s[0] == c && Mark(k)[0] == '$' && Mark(k)[1] == '{';
    assert !(Mark(k) <= s);
  }

  /** A position where two different marks differ. */
  function Mismatch(k: string, k': string): (i: nat)
    requires k != k' && '}' !in k && '}' !in k'
    ensures i <= |k| && i <= |k'| && (k + "}")[i] != (k' + "}")[i]
  {
    if k == "" || k' == "" || k[0] != k'[0] then 0
    else
      assert k == [k[0]] + k[1..] && k' == [k'[0]] + k'[1..];
      1 + Mismatch(k[1..], k'[1..])
  }

  lemma MarksDiffer(k: string, k': string, rest: string)
    requires '}' !in k && '}' !in k' && k != k'
    ensures !(Mark(k) <= Mark(k') + rest)
  {
    var i := Mismatch(k, k');
    var a, b := Mark(k), Mark(k') + rest;
    assert a == "${" + (k + "}") && b == "${" + (k' + "}") + rest;
    assert a[i + 2] == (k + "}")[i] && b[i + 2] == (k' + "}")[i];
  }

  lemma ReplaceHit(k: string, v: string, rest: string)
    ensures ReplaceAll(Mark(k) + rest, Mark(k), v) == v + ReplaceAll(rest, Mark(k), v)
  {
    var s := Mark(k) + rest;
    assert s[|Mark(k)|..] == rest;
  }

  function MarkTail(k: string): string {
    "{" + k + "}"
  }

  lemma TailIs(k: string)
    ensures Mark(k) == ['$'] + MarkTail(k)
    ensures '$' !in k ==> Settled(MarkTail(k))
  {
    if '$' !in k { NoDollar(MarkTail(k)); }
  }

  lemma Regroup(a: string, b: string, c: string)
    ensures (a + b) + c == a + (b + c)
  {
  }

  lemma ReplaceMiss(k: string, k': string, v: string, rest: string)
    requires Plain(Var(k)) && Plain(Var(k')) && k != k'
    ensures ReplaceAll(Mark(k') + rest, Mark(k), v) == Mark(k') + ReplaceAll(rest, Mark(k), v)
  {
    MarksDiffer(k, k', rest);
    TailIs(k');
    var body := MarkTail(k');
    SkipPlain(body, rest, k, v);
    hide MarkTail;
    hide ReplaceAll;
    Regroup(['$'], body, rest);
    Regroup(['$'], body, ReplaceAll(rest, Mark(k), v));
    MarkSome(k);
    hide Mark;
    SkipMiss('$', body + rest, Mark(k), v);
  }

  lemma MarkSome(k: string)
    ensures Mark(k) != ""
  {
  }

  /** ReplaceAll goes on behind a character at which nothing matches. */
  lemma SkipMiss(x: char, rest: string, old_: string, v: string)
    requires old_ != "" && !(old_ <= [x] + rest)
    ensures ReplaceAll([x] + rest, old_, v) == [x] + ReplaceAll(rest, old_, v)
  {
    var s := [x] + rest;
    assert s[1..] == rest && s[0] == x;
  }

  /** One replace-all on a rendered template replaces exactly the tokens of its variable. */
  lemma {:induction false} ReplaceOneVariable(ts: seq<Token>, k: string, v: string)
    requires AllPlain(ts) && Plain(Var(k))
    ensures ReplaceAll(Render(ts), Mark(k), v) == Render(Subst(ts, map[k := v]))
  {
    if ts != [] {
      var rest := ts[1..];
      ReplaceOneVariable(rest, k, v);
      assert Plain(ts[0]);
      match ts[0] {
        case Lit(text) => SkipPlain(text, Render(rest), k, v);
        case Var(k') =>
          if k' == k { ReplaceHit(k, v, Render(rest)); } else { ReplaceMiss(k, k', v, Render(rest)); }
      }
    }
  }

  lemma {:induction false} SubstTwice(ts: seq<Token>, m: map<string, string>, k: string, v: string)
    ensures Subst(Subst(ts, m), map[k := v]) == Subst(ts, if k in m then m else m[k := v])
  {
    if ts != [] {
      SubstTwice(ts[1..], m, k, v);
      assert Subst(ts, m)[1..] == Subst(ts[1..], m);
    }
  }

  lemma {:induction false} SubstPlain(ts: seq<Token>, m: map<string, string>)
    requires AllPlain(ts) && forall k :: k in m ==> Settled(m[k])
    ensures AllPlain(Subst(ts, m))
  {
    if ts != [] {
      SubstPlain(ts[1..], m);
      var r := Subst(ts, m);
      assert r[1..] == Subst(ts[1..], m);
      assert Plain(ts[0]) && Plain(r[0]);
      assert forall i :: 1 <= i < |r| ==> r[i] == r[1..][i - 1];
    }
  }

  lemma {:induction false} SubstNone(ts: seq<Token>)
    ensures Subst(ts, map[]) == ts
  {
    if ts != [] {
      SubstNone(ts[1..]);
    }
  }

  lemma {:induction false} UpToBraceInMark(k: string, rest: string)
    requires '}' !in k
    ensures UpToBrace(k + "}" + rest) == |k|
  {
    var s := k + "}" + rest;
    if k != "" {
      UpToBraceInMark(k[1..], rest);
      assert s[1..] == k[1..] + "}" + rest;
      assert s[0] == k[0];
    }
  }

  lemma FindSkipsOne(text: string, rest: string)
    requires text != "" && Settled(text)
    ensures FindAll(text + rest) == FindAll(text[1..] + rest)
  {
    var s := text + rest;
    assert s[1..] == text[1..] + rest;
    assert s[0] == text[0] && (|text| > 1 ==> s[1] == text[1]);
    assert !("${" <= s);
  }

  lemma {:induction false} FindSkips(text: string, rest: string)
    requires Settled(text)
    ensures FindAll(text + rest) == FindAll(rest)
  {
    if text == "" {
      assert text + rest == rest;
    } else {
      FindSkips(text[1..], rest);
      FindSkipsOne(text, rest);
    }
  }

  lemma FindsMark(k: string, rest: string)
    requires Plain(Var(k))
    ensures FindAll(Mark(k) + rest) == [k] + FindAll(rest)
  {
    var s := Mark(k) + rest;
    assert s[2..] == k + "}" + rest;
    UpToBraceInMark(k, rest);
    assert s[2..|k| + 2] == k;
    assert "${" <= s;
    assert KeyAtStart(s) == Some(k);
    assert s[|k| + 3..] == rest;
  }

  /** The regular expression finds exactly the variable tokens, in order. */
  lemma {:induction false} FindsTheVariables(ts: seq<Token>)
    requires AllPlain(ts)
    ensures FindAll(Render(ts)) == Keys(ts)
    ensures forall k :: k in Keys(ts) ==> Plain(Var(k))
  {
    if ts != [] {
      FindsTheVariables(ts[1..]);
      assert Plain(ts[0]);
      match ts[0] {
        case Lit(text) => FindSkips(text, Render(ts[1..]));
        case Var(k) => FindsMark(k, Render(ts[1..]));
      }
    }
  }

  ghost predicate PlainTexts(ks: seq<string>, data: Data) {
    forall k :: k in ks && Lookup(data, k).Some? ==> Settled(Lookup(data, k).value)
  }

  lemma {:induction false} CarriedIsPlain(ks: seq<string>, data: Data)
    requires PlainTexts(ks, data)
    ensures Settled(LastText(ks, data))
    ensures forall k :: k in Carried(ks, data) ==> Settled(Carried(ks, data)[k])
  {
    if ks != [] {
      assert ks[|ks| - 1] in ks;
      CarriedIsPlain(ks[..|ks| - 1], data);
    }
  }

  /** After the loop has visited `ks`, the template is the original one with exactly those variables substituted. */
  lemma {:induction false} LoopSubstitutes(ts: seq<Token>, data: Data, ks: seq<string>)
    requires AllPlain(ts) && PlainTexts(ks, data) && forall k :: k in ks ==> Plain(Var(k))
    ensures Rewrite(ks, data, Render(ts)) == Render(Subst(ts, Carried(ks, data)))
  {
    if ks == [] {
      SubstNone(ts);
    } else {
      var front, k := ks[..|ks| - 1], ks[|ks| - 1];
      LoopSubstitutes(ts, data, front);
      CarriedIsPlain(front, data);
      SubstPlain(ts, Carried(front, data));
      assert Plain(Var(k));
      ReplaceOneVariable(Subst(ts, Carried(front, data)), k, LastText(ks, data));
      SubstTwice(ts, Carried(front, data), k, LastText(ks, data));
    }
  }

  /** The loop, for every data map, repeated and missing variables included: it is the token-wise
      substitution of each variable by the `vs` carried to its first occurrence. */
  lemma LoopIsSubstitution(ts: seq<Token>, data: Data)
    requires AllPlain(ts) && PlainTexts(Keys(ts), data)
    ensures Rewrite(FindAll(Render(ts)), data, Render(ts)) == Render(Subst(ts, Carried(Keys(ts), data)))
  {
    FindsTheVariables(ts);
    LoopSubstitutes(ts, data, Keys(ts));
  }

  /** Substituting texts that are longer or the same gives the same result only if they are the same. */
  lemma {:induction false} LongerTexts(ts: seq<Token>, v: map<string, string>, w: map<string, string>)
    requires forall k :: k in Keys(ts) ==> k in v && k in w && (v[k] == w[k] || w[k] == "")
    ensures |Render(Subst(ts, v))| >= |Render(Subst(ts, w))|
    ensures (forall k :: k in Keys(ts) ==> v[k] == w[k]) ==> Render(Subst(ts, v)) == Render(Subst(ts, w))
    ensures (exists k :: k in Keys(ts) && v[k] != w[k]) ==> |Render(Subst(ts, v))| > |Render(Subst(ts, w))|
  {
    if ts != [] {
      var rest := ts[1..];
      assert forall k :: k in Keys(rest) ==> k in Keys(ts);
      LongerTexts(rest, v, w);
      if ts[0].Var? {
        assert ts[0].key in Keys(ts);
      }
    }
  }

  /** No missing variable first occurs after a handled one whose text is not empty. */
  ghost predicate NothingToCarry(ks: seq<string>, data: Data) {
    ks == [] ||
    var front, k := ks[..|ks| - 1], ks[|ks| - 1];
    NothingToCarry(front, data) && (Lookup(data, k) == None && k !in front ==> LastText(front, data) == "")
  }

  lemma CarriedSnoc(front: seq<string>, k: string, data: Data)
    ensures Carried(front + [k], data) == if k in front then Carried(front, data) else
      Carried(front, data)[k := if Lookup(data, k).Some? then TextOf(data, k) else LastText(front, data)]
  {
    var ks := front + [k];
    assert ks[..|ks| - 1] == front && ks[|ks| - 1] == k;
  }

  /** Every text in `m` is the one promised. */
  ghost predicate Keeps(m: map<string, string>, data: Data) {
    forall k :: k in m ==> m[k] == TextOf(data, k)
  }

  ghost predicate KeepsOrAdds(m: map<string, string>, data: Data) {
    forall k :: k in m ==> m[k] == TextOf(data, k) || TextOf(data, k) == ""
  }

  lemma KeepsMore(m: map<string, string>, data: Data, k: string, t: string)
    requires k !in m
    ensures Keeps(m[k := t], data) <==> Keeps(m, data) && t == TextOf(data, k)
    ensures KeepsOrAdds(m, data) && (t == TextOf(data, k) || TextOf(data, k) == "") ==> KeepsOrAdds(m[k := t], data)
  {
    hide TextOf;
    assert forall x :: x in m ==> m[k := t][x] == m[x];
  }

  lemma TextIs(data: Data, k: string)
    ensures Lookup(data, k) == None ==> TextOf(data, k) == ""
  {
  }

  lemma CarriedKeys(ks: seq<string>, data: Data)
    ensures forall k :: k in Carried(ks, data) <==> k in ks
  {
  }

  lemma NothingMore(ks: seq<string>, data: Data)
    requires ks != []
    ensures var front, k := ks[..|ks| - 1], ks[|ks| - 1];
      NothingToCarry(ks, data)
      <==> NothingToCarry(front, data) && (Lookup(data, k) == None && k !in front ==> LastText(front, data) == "")
  {
  }

  lemma NoneCarried(data: Data)
    ensures KeepsOrAdds(Carried([], data), data) && Keeps(Carried([], data), data) && NothingToCarry([], data)
  {
  }

  /** The carried texts: a handled variable has its own text; a missing one has what came before it. */
  lemma {:induction false} CarriedTexts(ks: seq<string>, data: Data)
    ensures KeepsOrAdds(Carried(ks, data), data)
    ensures Keeps(Carried(ks, data), data) <==> NothingToCarry(ks, data)
  {
    if ks == [] {
      NoneCarried(data);
    } else {
      hide *;
      var front, k := ks[..|ks| - 1], ks[|ks| - 1];
      CarriedTexts(front, data);
      assert ks == front + [k];
      CarriedSnoc(front, k, data);
      NothingMore(ks, data);
      TextIs(data, k);
      CarriedKeys(front, data);
      if k !in front {
        KeepsMore(Carried(front, data), data, k,
                  if Lookup(data, k).Some? then TextOf(data, k) else LastText(front, data));
      }
    }
  }

  /** The loop does what the template language promises exactly when nothing is carried over. */
  lemma PromiseKeptIff(ts: seq<Token>, data: Data)
    requires AllPlain(ts) && PlainTexts(Keys(ts), data)
    ensures Rewrite(FindAll(Render(ts)), data, Render(ts)) == Render(Subst(ts, Promised(Keys(ts), data)))
      <==> NothingToCarry(Keys(ts), data)
  {
    LoopIsSubstitution(ts, data);
    CarriedTexts(Keys(ts), data);
    LongerTexts(ts, Carried(Keys(ts), data), Promised(Keys(ts), data));
  }

  lemma {:induction false} HandledCarriesNothing(ks: seq<string>, data: Data)
    requires forall k :: k in ks ==> Lookup(data, k).Some?
    ensures NothingToCarry(ks, data)
  {
    if ks != [] {
      HandledCarriesNothing(ks[..|ks| - 1], data);
      assert ks[|ks| - 1] in ks;
    }
  }

  /** The documented case: when every variable has a handled value, the loop is the substitution. */
  lemma AllHandled(ts: seq<Token>, data: Data)
    requires AllPlain(ts) && PlainTexts(Keys(ts), data)
    requires forall k :: k in Keys(ts) ==> Lookup(data, k).Some?
    ensures Rewrite(FindAll(Render(ts)), data, Render(ts)) == Render(Subst(ts, Promised(Keys(ts), data)))
  {
    HandledCarriesNothing(Keys(ts), data);
    PromiseKeptIff(ts, data);
  }

  /** `${a}${b}` with only a = "1" gives "11", not "1". */
  lemma MissingKeyRepeatsTheLastValue()
    ensures var ts, data: Data := [Var("a"), Var("b")], map["a" := Text("1")];
            && AllPlain(ts) && PlainTexts(Keys(ts), data)
            && Rewrite(FindAll(Render(ts)), data, Render(ts)) == "11"
            && Render(Subst(ts, Promised(Keys(ts), data))) == "1"
  {
    var ts, data: Data := [Var("a"), Var("b")], map["a" := Text("1")];
    OneCarried(data);
    PlainAb();
    LoopIsSubstitution(ts, data);
    RenderTwo(Carried(Keys(ts), data), "1", "1");
    RenderTwo(Promised(Keys(ts), data), "1", "");
  }

  lemma PlainAb()
    ensures Keys([Var("a"), Var("b")]) == ["a", "b"] && AllPlain([Var("a"), Var("b")])
  {
    assert [Var("a"), Var("b")][1..] == [Var("b")] && [Var("b")][1..] == [];
    assert ["a"] + ["b"] == ["a", "b"];
  }

  lemma OneCarried(data: Data)
    requires data == map["a" := Text("1")]
    ensures Carried(["a", "b"], data) == map["a" := "1", "b" := "1"]
    ensures Promised(["a", "b"], data) == map["a" := "1", "b" := ""]
    ensures PlainTexts(["a", "b"], data)
  {
    CarriedSnoc([], "a", data);
    CarriedSnoc(["a"], "b", data);
    assert [] + ["a"] == ["a"] && ["a"] + ["b"] == ["a", "b"];
    assert LastText(["a"], data) == "1";
  }

  lemma RenderTwo(m: map<string, string>, x: string, y: string)
    requires m == map["a" := x, "b" := y]
    ensures Render(Subst([Var("a"), Var("b")], m)) == x + y
  {
    assert [Var("a"), Var("b")][1..] == [Var("b")] && [Var("b")][1..] == [];
    assert Subst([Var("b")], m) == [Lit(y)];
    assert Subst([Var("a"), Var("b")], m) == [Lit(x)] + [Lit(y)] == [Lit(x), Lit(y)];
    assert [Lit(x), Lit(y)][1..] == [Lit(y)] && [Lit(y)][1..] == [];
    assert y + "" == y;
    assert Render([Lit(y)]) == y;
  }

  lemma ReplaceTwice(k: string, v: string)
    ensures ReplaceAll(Mark(k) + Mark(k), Mark(k), v) == v + v
  {
    ReplaceHit(k, v, Mark(k));
    ReplaceHit(k, v, "");
    assert Mark(k) + "" == Mark(k) && v + "" == v;
  }

  lemma ReplaceFirstOfTwo(k: string, k': string, v: string)
    requires Plain(Var(k)) && Plain(Var(k')) && k != k'
    ensures ReplaceAll(Mark(k) + Mark(k'), Mark(k), v) == v + Mark(k')
  {
    ReplaceHit(k, v, Mark(k'));
    ReplaceMiss(k, k', v, "");
    assert Mark(k') + "" == Mark(k');
  }

  // ---- Values that hold marks themselves ----

  /** The values as tokens: text and marks. */
  type Texts = map<string, seq<Token>>

  ghost predicate Spells(data: Data, d: Texts, ks: seq<string>) {
    forall k :: k in ks ==>
      && (Lookup(data, k).Some? <==> k in d)
      && (k in d ==> AllPlain(d[k]) && Render(d[k]) == Lookup(data, k).value)
  }

  function Expand(ts: seq<Token>, k: string, v: seq<Token>): seq<Token> {
    if ts == [] then [] else (if ts[0] == Var(k) then v else [ts[0]]) + Expand(ts[1..], k, v)
  }

  function LastTokens(ks: seq<string>, d: Texts): seq<Token> {
    if ks == [] then []
    else if ks[|ks| - 1] in d then d[ks[|ks| - 1]]
    else LastTokens(ks[..|ks| - 1], d)
  }

  /** Each key in its turn expands to its value, in the template and in what earlier keys have expanded to. */
  function ExpandAll(ks: seq<string>, d: Texts, ts: seq<Token>): seq<Token> {
    if ks == [] then ts else Expand(ExpandAll(ks[..|ks| - 1], d, ts), ks[|ks| - 1], LastTokens(ks, d))
  }

  lemma {:induction false} RenderJoined(a: seq<Token>, b: seq<Token>)
    ensures Render(a + b) == Render(a) + Render(b)
  {
    hide Spelling;
    if a == [] {
      assert a + b == b;
    } else {
      RenderJoined(a[1..], b);
      assert (a + b)[1..] == a[1..] + b && (a + b)[0] == a[0];
      Regroup(Spelling(a[0]), Render(a[1..]), Render(b));
    }
  }

  lemma RenderOne(t: Token)
    ensures Render([t]) == Spelling(t)
  {
    assert [t][1..] == [];
    assert Spelling(t) + "" == Spelling(t);
  }

  lemma {:induction false} ExpandRenders(ts: seq<Token>, k: string, v: seq<Token>)
    ensures Render(Expand(ts, k, v)) == Render(Subst(ts, map[k := Render(v)]))
  {
    if ts != [] {
      ExpandRenders(ts[1..], k, v);
      var head := if ts[0] == Var(k) then v else [ts[0]];
      RenderJoined(head, Expand(ts[1..], k, v));
      RenderOne(ts[0]);
    }
  }

  lemma {:induction false} ExpandPlain(ts: seq<Token>, k: string, v: seq<Token>)
    requires AllPlain(ts) && AllPlain(v)
    ensures AllPlain(Expand(ts, k, v))
  {
    if ts != [] {
      assert Plain(ts[0]);
      ExpandPlain(ts[1..], k, v);
    }
  }

  lemma {:induction false} LastSpelt(ks: seq<string>, data: Data, d: Texts)
    requires Spells(data, d, ks)
    ensures AllPlain(LastTokens(ks, d)) && Render(LastTokens(ks, d)) == LastText(ks, data)
  {
    if ks != [] {
      assert ks[|ks| - 1] in ks;
      LastSpelt(ks[..|ks| - 1], data, d);
    }
  }

  lemma {:induction false} LoopExpands(ts: seq<Token>, data: Data, d: Texts, ks: seq<string>)
    requires AllPlain(ts) && Spells(data, d, ks) && forall k :: k in ks ==> Plain(Var(k))
    ensures AllPlain(ExpandAll(ks, d, ts)) && Rewrite(ks, data, Render(ts)) == Render(ExpandAll(ks, d, ts))
  {
    if ks != [] {
      var front, k := ks[..|ks| - 1], ks[|ks| - 1];
      LoopExpands(ts, data, d, front);
      LastSpelt(ks, data, d);
      var now := ExpandAll(front, d, ts);
      assert k in ks;
      ReplaceOneVariable(now, k, LastText(ks, data));
      ExpandRenders(now, k, LastTokens(ks, d));
      ExpandPlain(now, k, LastTokens(ks, d));
    }
  }

  /** For values made of text and marks the loop is macro expansion, one key after the other in the order they are
      found: a mark inside a value is expanded too if its key is visited later. */
  lemma LoopIsExpansion(ts: seq<Token>, data: Data, d: Texts)
    requires AllPlain(ts) && Spells(data, d, Keys(ts))
    ensures Rewrite(FindAll(Render(ts)), data, Render(ts)) == Render(ExpandAll(Keys(ts), d, ts))
  {
    FindsTheVariables(ts);
    LoopExpands(ts, data, d, Keys(ts));
  }

  // ---- When no value is expanded again ----

  /** What the loop puts in the place of each variable, as tokens. */
  function CarriedTokens(ks: seq<string>, d: Texts): (m: Texts)
    ensures forall k :: k in m <==> k in ks
  {
    if ks == [] then map[]
    else
      var k, m := ks[|ks| - 1], CarriedTokens(ks[..|ks| - 1], d);
      assert ks == ks[..|ks| - 1] + [k];
      if k in m then m else m[k := LastTokens(ks, d)]
  }

  /** No text put in so far has a mark of the key visited next. */
  ghost predicate NoneExpandedAgain(ks: seq<string>, d: Texts) {
    ks == [] ||
    var front, k := ks[..|ks| - 1], ks[|ks| - 1];
    NoneExpandedAgain(front, d) && forall x :: x in front ==> Var(k) !in CarriedTokens(front, d)[x]
  }

  /** Replaces the variables that `m` has tokens for. */
  function Insert(ts: seq<Token>, m: Texts): seq<Token> {
    if ts == [] then []
    else (if ts[0].Var? && ts[0].key in m then m[ts[0].key] else [ts[0]]) + Insert(ts[1..], m)
  }

  lemma {:induction false} ExpandJoined(a: seq<Token>, b: seq<Token>, k: string, v: seq<Token>)
    ensures Expand(a + b, k, v) == Expand(a, k, v) + Expand(b, k, v)
  {
    if a == [] {
      assert a + b == b;
    } else {
      ExpandJoined(a[1..], b, k, v);
      assert (a + b)[1..] == a[1..] + b && (a + b)[0] == a[0];
    }
  }

  lemma {:induction false} ExpandNothing(ts: seq<Token>, k: string, v: seq<Token>)
    requires Var(k) !in ts
    ensures Expand(ts, k, v) == ts
  {
    if ts != [] { ExpandNothing(ts[1..], k, v); }
  }

  lemma {:induction false} InsertMore(ts: seq<Token>, m: Texts, k: string, v: seq<Token>)
    requires forall x :: x in m ==> Var(k) !in m[x]
    ensures Expand(Insert(ts, m), k, v) == Insert(ts, if k in m then m else m[k := v])
  {
    if ts != [] {
      InsertMore(ts[1..], m, k, v);
      var head := if ts[0].Var? && ts[0].key in m then m[ts[0].key] else [ts[0]];
      ExpandJoined(head, Insert(ts[1..], m), k, v);
      if ts[0].Var? && ts[0].key in m {
        ExpandNothing(head, k, v);
      } else {
        assert [ts[0]][1..] == [];
        assert Expand([ts[0]], k, v) == if ts[0] == Var(k) then v else [ts[0]];
      }
    }
  }

  lemma {:induction false} InsertNone(ts: seq<Token>)
    ensures Insert(ts, map[]) == ts
  {
    if ts != [] { InsertNone(ts[1..]); }
  }

  lemma {:induction false} ExpandsOnce(ts: seq<Token>, d: Texts, ks: seq<string>)
    requires NoneExpandedAgain(ks, d)
    ensures ExpandAll(ks, d, ts) == Insert(ts, CarriedTokens(ks, d))
  {
    if ks == [] {
      InsertNone(ts);
    } else {
      ExpandsOnce(ts, d, ks[..|ks| - 1]);
      InsertMore(ts, CarriedTokens(ks[..|ks| - 1], d), ks[|ks| - 1], LastTokens(ks, d));
    }
  }

  lemma {:induction false} InsertRenders(ts: seq<Token>, mt: Texts, m: map<string, string>)
    requires mt.Keys == m.Keys && forall k :: k in m ==> Render(mt[k]) == m[k]
    ensures Render(Insert(ts, mt)) == Render(Subst(ts, m))
  {
    if ts != [] {
      InsertRenders(ts[1..], mt, m);
      var head := if ts[0].Var? && ts[0].key in mt then mt[ts[0].key] else [ts[0]];
      RenderJoined(head, Insert(ts[1..], mt));
      RenderOne(ts[0]);
    }
  }

  lemma {:induction false} CarriedSpelt(ks: seq<string>, data: Data, d: Texts)
    requires Spells(data, d, ks)
    ensures CarriedTokens(ks, d).Keys == Carried(ks, data).Keys
    ensures forall k :: k in ks ==> Render(CarriedTokens(ks, d)[k]) == Carried(ks, data)[k]
  {
    hide Render;
    hide LastText;
    hide LastTokens;
    hide AllPlain;
    hide Lookup;
    if ks != [] {
      var front := ks[..|ks| - 1];
      assert ks == front + [ks[|ks| - 1]];
      LastSpelt(ks, data, d);
      assert Spells(data, d, front);
      hide Spells;
      CarriedSpelt(front, data, d);
    }
  }

  /** Values may hold marks, as long as none is of a key visited later: the loop then is the substitution of the carried
      texts, marks and all, and what the template language promises exactly when nothing is carried over. */
  lemma MarksLeftAlone(ts: seq<Token>, data: Data, d: Texts)
    requires AllPlain(ts) && Spells(data, d, Keys(ts)) && NoneExpandedAgain(Keys(ts), d)
    ensures Rewrite(FindAll(Render(ts)), data, Render(ts)) == Render(Subst(ts, Carried(Keys(ts), data)))
    ensures Rewrite(FindAll(Render(ts)), data, Render(ts)) == Render(Subst(ts, Promised(Keys(ts), data)))
       <==> NothingToCarry(Keys(ts), data)
  {
    var ks := Keys(ts);
    LoopIsExpansion(ts, data, d);
    ExpandsOnce(ts, d, ks);
    CarriedSpelt(ks, data, d);
    InsertRenders(ts, CarriedTokens(ks, d), Carried(ks, data));
    CarriedTexts(ks, data);
    LongerTexts(ts, Carried(ks, data), Promised(ks, data));
  }

  lemma RewriteAb()
    ensures Rewrite(["a", "b"], map["a" := Text(Mark("b")), "b" := Text("x")], Mark("a") + Mark("b")) == "x" + "x"
  {
    hide Mark;
    var data: Data := map["a" := Text(Mark("b")), "b" := Text("x")];
    assert ["a", "b"][..1] == ["a"] && ["a"][..0] == [];
    ReplaceFirstOfTwo("a", "b", Mark("b"));
    assert Rewrite(["a"], data, Mark("a") + Mark("b")) == Mark("b") + Mark("b");
    ReplaceTwice("b", "x");
  }

  lemma RenderAb()
    ensures Render([Var("a"), Var("b")]) == Mark("a") + Mark("b")
  {
    hide Mark;
    assert [Var("a"), Var("b")][1..] == [Var("b")];
    RenderOne(Var("b"));
  }

  /** A value with a mark that does come later: `${a}${b}` with a = "${b}" and b = "x" gives "xx". */
  lemma ValueIsExpandedAgain()
    ensures var ts, data: Data := [Var("a"), Var("b")], map["a" := Text(Mark("b")), "b" := Text("x")];
            && AllPlain(ts)
            && Rewrite(FindAll(Render(ts)), data, Render(ts)) == "x" + "x"
            && Render(Subst(ts, Promised(Keys(ts), data))) == Mark("b") + "x"
  {
    hide Mark;
    hide Rewrite;
    hide FindAll;
    hide Render;
    hide Subst;
    var data: Data := map["a" := Text(Mark("b")), "b" := Text("x")];
    PlainAb();
    FindsTheVariables([Var("a"), Var("b")]);
    RenderAb();
    RewriteAb();
    RenderTwo(Promised(["a", "b"], data), Mark("b"), "x");
  }
}
