/** `unescapeSupplementaryPlane`: rewriting `\U` escapes of double-quoted scalars to literal UTF-8,
    and a reference decoder (section 5.7 of YAML 1.2.2, section 3 of RFC 3629) that the rewriting
    is proved to respect. */
module Unescape {
  import opened Yaml

  type Byte = b: int | 0 <= b < 256

  const QUOTE: Byte := 34
  const BACKSLASH: Byte := 92
  const CAPITAL_U: Byte := 85

  // ----- hex digits and UTF-8

  predicate Hex(b: Byte) { 48 <= b <= 57 || 65 <= b <= 70 || 97 <= b <= 102 }

  function Digit(b: Byte): (d: nat)
    requires Hex(b)
    ensures d < 16
  {
    if b <= 57 then b - 48 else if b <= 70 then b - 55 else b - 87
  }

  /** The first `n` bytes are hex digits. */
  predicate AllHex(s: seq<Byte>, n: nat) { n <= |s| && forall k :: 0 <= k < n ==> Hex(s[k]) }

  function HexNumber(s: seq<Byte>, n: nat): (v: nat)
    requires AllHex(s, n)
  {
    if n == 0 then 0 else 16 * HexNumber(s, n - 1) + Digit(s[n - 1])
  }

  predicate Scalar(cp: int) { 0 <= cp < 0xD800 || 0xE000 <= cp <= 0x10FFFF }

  /** `utf8.EncodeRune`: what is no scalar value becomes U+FFFD. */
  function EncodeRune(cp: nat): (r: seq<Byte>)
    ensures 1 <= |r| <= 4
  {
    if cp < 0x80 then [cp]
    else if cp < 0x800 then [0xC0 + cp / 64, 0x80 + cp % 64]
    else if !Scalar(cp) then [0xEF, 0xBF, 0xBD]
    else if cp < 0x10000 then [0xE0 + cp / 4096, 0x80 + cp / 64 % 64, 0x80 + cp % 64]
    else [0xF0 + cp / 262144, 0x80 + cp / 4096 % 64, 0x80 + cp / 64 % 64, 0x80 + cp % 64]
  }

  predicate Cont(b: Byte) { 0x80 <= b < 0xC0 }

  datatype Char = Char(cp: nat, size: nat)

  function Part(b: Byte, base: int): (v: int) { b as int - base }

  /** The character at the head, if the bytes there are well-formed UTF-8. */
  function DecodeRune(s: seq<Byte>): (r: Option<Char>)
    ensures r.Some? ==> 1 <= r.value.size <= 4 && r.value.size <= |s| && Scalar(r.value.cp)
    ensures r.Some? ==>
              (forall k :: 0 <= k < r.value.size ==> s[k] >= 0x80) || (r.value.size == 1 && r.value.cp == s[0])
  {
    if |s| >= 1 && s[0] < 0x80 then Some(Char(s[0], 1))
    else if |s| >= 2 && 0xC2 <= s[0] < 0xE0 && Cont(s[1]) then Some(Char(Part(s[0], 0xC0) * 64 + Part(s[1], 0x80), 2))
    else if |s| >= 3 && 0xE0 <= s[0] < 0xF0 && Cont(s[1]) && Cont(s[2]) then
      var cp := Part(s[0], 0xE0) * 4096 + Part(s[1], 0x80) * 64 + Part(s[2], 0x80);
      if cp >= 0x800 && Scalar(cp) then Some(Char(cp, 3)) else None
    else if |s| >= 4 && 0xF0 <= s[0] < 0xF5 && Cont(s[1]) && Cont(s[2]) && Cont(s[3]) then
      var cp := Part(s[0], 0xF0) * 262144 + Part(s[1], 0x80) * 4096 + Part(s[2], 0x80) * 64 + Part(s[3], 0x80);
      if cp >= 0x10000 && Scalar(cp) then Some(Char(cp, 4)) else None
    else None
  }

  predicate Supplementary(cp: int) { 0x10000 <= cp <= 0x10FFFF }

  lemma OneByte(a: Byte, rest: seq<Byte>)
    requires a < 0x80
    ensures DecodeRune([a] + rest) == Some(Char(a, 1))
  {
  }

  lemma TwoBytes(a: int, b: int, rest: seq<Byte>)
    requires 2 <= a < 32 && 0 <= b < 64
    ensures DecodeRune([0xC0 + a, 0x80 + b] + rest) == Some(Char(a * 64 + b, 2))
  {
    var s: seq<Byte> := [0xC0 + a, 0x80 + b] + rest;
    assert s[0] == 0xC0 + a && s[1] == 0x80 + b;
  }

  lemma ThreeBytes(a: int, b: int, c: int, rest: seq<Byte>)
    requires 0 <= a < 16 && 0 <= b < 64 && 0 <= c < 64 && a * 4096 + b * 64 + c >= 0x800
             && Scalar(a * 4096 + b * 64 + c)
    ensures DecodeRune([0xE0 + a, 0x80 + b, 0x80 + c] + rest) == Some(Char(a * 4096 + b * 64 + c, 3))
  {
    var s: seq<Byte> := [0xE0 + a, 0x80 + b, 0x80 + c] + rest;
    assert s[0] == 0xE0 + a && s[1] == 0x80 + b && s[2] == 0x80 + c;
  }

  lemma FourBytes(a: int, b: int, c: int, d: int, rest: seq<Byte>)
    requires 0 <= a < 5 && 0 <= b < 64 && 0 <= c < 64 && 0 <= d < 64
             && Supplementary(a * 262144 + b * 4096 + c * 64 + d)
    ensures DecodeRune([0xF0 + a, 0x80 + b, 0x80 + c, 0x80 + d] + rest)
            == Some(Char(a * 262144 + b * 4096 + c * 64 + d, 4))
  {
    var s: seq<Byte> := [0xF0 + a, 0x80 + b, 0x80 + c, 0x80 + d] + rest;
    assert s[0] == 0xF0 + a && s[1] == 0x80 + b && s[2] == 0x80 + c && s[3] == 0x80 + d;
  }

  lemma Base64Digits(cp: nat)
    ensures cp == cp / 64 * 64 + cp % 64 && cp == cp / 4096 * 4096 + cp / 64 % 64 * 64 + cp % 64
    ensures cp == cp / 262144 * 262144 + cp / 4096 % 64 * 4096 + cp / 64 % 64 * 64 + cp % 64
  {
    assert cp / 64 / 64 == cp / 4096 && cp / 4096 / 64 == cp / 262144;
  }

  /** The encoding of a scalar value decodes to it, whatever follows, and only a code point below
      U+0080 is encoded with bytes below 0x80. */
  lemma RuneRoundTrip(cp: nat, rest: seq<Byte>)
    requires Scalar(cp)
    ensures DecodeRune(EncodeRune(cp) + rest) == Some(Char(cp, |EncodeRune(cp)|))
    ensures if cp < 0x80 then EncodeRune(cp) == [cp] else forall k :: 0 <= k < |EncodeRune(cp)| ==>
                                                            EncodeRune(cp)[k] >= 0x80
  {
    hide DecodeRune;
    Base64Digits(cp);
    if cp < 0x80 { OneByte(cp, rest); }
    else if cp < 0x800 { TwoBytes(cp / 64, cp % 64, rest); }
    else if cp < 0x10000 { ThreeBytes(cp / 4096, cp / 64 % 64, cp % 64, rest); }
    else { FourBytes(cp / 262144, cp / 4096 % 64, cp / 64 % 64, cp % 64, rest); }
  }

  // ----- the scanner

  /** A `\U` escape the scanner rewrites: eight hex digits that fit a signed 32-bit number. */
  predicate Rewritable(s: seq<Byte>) {
    && |s| >= 10 && s[0] == BACKSLASH && s[1] == CAPITAL_U && AllHex(s[2..], 8)
    && HexNumber(s[2..], 8) < 0x8000_0000
  }

  /** The output for the bytes `s`, starting inside a double-quoted scalar or not. */
  function Scan(s: seq<Byte>, inDQ: bool): (r: seq<Byte>) {
    if s == [] then []
    else if !inDQ then [s[0]] + Scan(s[1..], s[0] == QUOTE)
    else if s[0] == BACKSLASH && |s| >= 2 then
      if Rewritable(s) then EncodeRune(HexNumber(s[2..], 8)) + Scan(s[10..], true)
      else [s[0], s[1]] + Scan(s[2..], true)
    else [s[0]] + Scan(s[1..], s[0] != QUOTE)
  }

  lemma SliceOfSlice(s: seq<Byte>, i: nat, k: nat)
    requires i + k <= |s|
    ensures s[i..][k..] == s[i + k..]
  {
  }

  /** `strconv.ParseInt(text, 16, 32)` on text that is all hex digits. */
  method ParseHex(s: seq<Byte>) returns (v: nat, ok: bool)
    requires AllHex(s, 8)
    ensures v == HexNumber(s, 8) && (ok <==> v < 0x8000_0000)
  {
    v := 0;
    for k := 0 to 8
      invariant v == HexNumber(s, k)
    {
      v := 16 * v + Digit(s[k]);
    }
    ok := v < 0x8000_0000;
  }

  /** `allHex` on the eight bytes at the head. */
  method CheckHex(s: seq<Byte>) returns (ok: bool)
    requires |s| >= 8
    ensures ok <==> AllHex(s, 8)
  {
    for k := 0 to 8
      invariant forall j :: 0 <= j < k ==> Hex(s[j])
    {
      if !Hex(s[k]) { return false; }
    }
    return true;
  }

  /** One step inside a double-quoted scalar: what to append and how many bytes it consumed. */
  method ScanEscape(s: seq<Byte>) returns (piece: seq<Byte>, used: nat)
    requires |s| >= 2 && s[0] == BACKSLASH
    ensures 2 <= used <= |s| && Scan(s, true) == piece + Scan(s[used..], true)
  {
    if s[1] == CAPITAL_U && |s| > 9 {
      var hex := CheckHex(s[2..]);
      if hex {
        var code, ok := ParseHex(s[2..]);
        if ok { return EncodeRune(code), 10; }
      }
    }
    return [s[0], s[1]], 2;
  }

  /** The state after an ordinary byte. */
  function Toggled(inDQ: bool, b: Byte): (r: bool) { if b == QUOTE then !inDQ else inDQ }

  lemma ScanByte(s: seq<Byte>, inDQ: bool)
    requires s != [] && !(inDQ && s[0] == BACKSLASH && |s| >= 2)
    ensures Scan(s, inDQ) == [s[0]] + Scan(s[1..], Toggled(inDQ, s[0]))
  {
  }

  lemma Regroup(a: seq<Byte>, b: seq<Byte>, c: seq<Byte>)
    ensures a + (b + c) == (a + b) + c
  {
  }

  /** `unescapeSupplementaryPlane` */
  method UnescapeSupplementaryPlane(body: seq<Byte>) returns (out: seq<Byte>)
    ensures out == Scan(body, false)
  {
    hide Scan;
    out := [];
    var inDQ, i := false, 0;
    assert body[0..] == body;
    while i < |body|
      invariant i <= |body| && out + Scan(body[i..], inDQ) == Scan(body, false)
    {
      var b, rest := body[i], body[i..];
      if inDQ && b == BACKSLASH && i + 1 < |body| {
        var piece, used := ScanEscape(rest);
        SliceOfSlice(body, i, used);
        Regroup(out, piece, Scan(rest[used..], true));
        out, i := out + piece, i + used;
      } else {
        ScanByte(rest, inDQ);
        SliceOfSlice(body, i, 1);
        Regroup(out, [b], Scan(rest[1..], Toggled(inDQ, b)));
        out, i := out + [b], i + 1;
        if b == QUOTE { inDQ := !inDQ; }
      }
    }
    assert Scan(body[i..], inDQ) == [] by { NothingLeft(body[i..], inDQ); }
  }

  lemma NothingLeft(s: seq<Byte>, inDQ: bool)
    requires s == []
    ensures Scan(s, inDQ) == []
  {
  }

  // ----- the reference decoder

  /** What a reader of the document sees: bytes outside double-quoted scalars, where scalars open
      and close, and the code points inside. `LineJoin` is an escaped line break. `Blank` is a
      literal space, tab or line break: line folding (section 6.5) may strip or fold it, while the
      same code point written as an escape is content. */
  datatype Token = Outside(b: Byte) | Open | Close | Chr(cp: nat) | Blank(cp: nat) | LineJoin

  datatype Lexeme = Lexeme(token: Token, size: nat)

  /** The single-character escapes of section 5.7. */
  function Simple(c: Byte): (t: Option<Token>) {
    match c
    case 48 => Some(Chr(0)) case 97 => Some(Chr(7)) case 98 => Some(Chr(8)) case 116 => Some(Chr(9)) case 9 =>
      Some(Chr(9))
    case 110 => Some(Chr(10)) case 118 => Some(Chr(11)) case 102 => Some(Chr(12)) case 114 => Some(Chr(13))
    case 101 => Some(Chr(27)) case 32 => Some(Chr(32)) case 34 => Some(Chr(34)) case 47 => Some(Chr(47)) case 92 =>
      Some(Chr(92))
    case 78 => Some(Chr(0x85)) case 95 => Some(Chr(0xA0)) case 76 => Some(Chr(0x2028)) case 80 => Some(Chr(0x2029))
    case 10 => Some(LineJoin)
    case _ => None
  }

  /** The table, by the characters of section 5.7; an escaped tab stands for itself. */
  lemma SimpleExactly(c: Byte)
    ensures var names, values := "0abtnvfre \"/\\N_LP",
            [0, 7, 8, 9, 10, 11, 12, 13, 27, 32, 34, 47, 92, 133, 160, 8232, 8233];
            && |names| == |values|
            && (forall k :: 0 <= k < |names| && names[k] as int == c ==> Simple(c) == Some(Chr(values[k])))
            && (c == 9 ==> Simple(c) == Some(Chr(9))) && (c == 10 ==> Simple(c) == Some(LineJoin))
            && (Simple(c).Some? ==> c == 9 || c == 10 || exists k :: 0 <= k < |names| && names[k] as int == c)
  {
    var names := "0abtnvfre \"/\\N_LP";
    if Simple(c).Some? && c != 9 && c != 10 {
      assert names[0] as int == 48 && names[1] as int == 97 && names[2] as int == 98 && names[3] as int == 116
             && names[4] as int == 110 && names[5] as int == 118 && names[6] as int == 102 && names[7] as int == 114
             && names[8] as int == 101 && names[9] as int == 32 && names[10] as int == 34 && names[11] as int == 47
             && names[12] as int == 92 && names[13] as int == 78 && names[14] as int == 95 && names[15] as int == 76
             && names[16] as int == 80;
    }
  }

  /** How many hex digits follow the escape character: 2 for `x`, 4 for `u`, 8 for `U`. */
  function DigitsAfter(c: Byte): (n: nat) {
    if c == 120 then 2 else if c == 117 then 4 else if c == CAPITAL_U then 8 else 0
  }

  function EscapeAt(s: seq<Byte>): (r: Option<Lexeme>)
    ensures r.Some? ==> |s| >= 2 && r.value.size == 2 + DigitsAfter(s[1]) <= |s| && AllHex(s[2..], DigitsAfter(s[1]))
  {
    if |s| < 2 then None
    else if DigitsAfter(s[1]) > 0 then
      var n := DigitsAfter(s[1]);
      if AllHex(s[2..], n) && Scalar(HexNumber(s[2..], n)) then Some(Lexeme(Chr(HexNumber(s[2..], n)), 2 + n)) else None
    else if Simple(s[1]).Some? then Some(Lexeme(Simple(s[1]).value, 2)) else None
  }

  /** A character written literally; other control characters are not allowed inside a scalar. */
  function Literal(cp: nat): (t: Option<Token>) {
    if cp > 32 then Some(Chr(cp)) else if cp in {9, 10, 13, 32} then Some(Blank(cp)) else None
  }

  /** The next token inside a double-quoted scalar. */
  function Head(s: seq<Byte>): (r: Option<Lexeme>)
    requires s != []
    ensures r.Some? ==> 1 <= r.value.size <= |s|
  {
    if s[0] == QUOTE then Some(Lexeme(Close, 1))
    else if s[0] == BACKSLASH then EscapeAt(s)
    else match DecodeRune(s)
      case None => None
      case Some(c) => if Literal(c.cp).None? then None else Some(Lexeme(Literal(c.cp).value, c.size))
  }

  function Prepend(t: Token, r: Option<seq<Token>>): (ts: Option<seq<Token>>) {
    if r.None? then None else Some([t] + r.value)
  }

  /** The tokens of a body; None if a scalar is malformed or not closed. */
  function Decode(s: seq<Byte>, inDQ: bool): (r: Option<seq<Token>>)
    decreases |s|
  {
    if s == [] then if inDQ then None else Some([])
    else if !inDQ then
      if s[0] == QUOTE then Prepend(Open, Decode(s[1..], true)) else Prepend(Outside(s[0]), Decode(s[1..], false))
    else match Head(s)
      case None => None
      case Some(l) => Prepend(l.token, Decode(s[l.size..], l.token != Close))
  }

  /** Every escape the scanner rewrites stands for a code point that is `ok`. */
  predicate RewritesOnly(s: seq<Byte>, inDQ: bool, ok: int -> bool) {
    if s == [] then true
    else if !inDQ then RewritesOnly(s[1..], s[0] == QUOTE, ok)
    else if s[0] == BACKSLASH && |s| >= 2 then
      if Rewritable(s) then ok(HexNumber(s[2..], 8)) && RewritesOnly(s[10..], true, ok)
      else RewritesOnly(s[2..], true, ok)
    else RewritesOnly(s[1..], s[0] != QUOTE, ok)
  }

  /** Every escape the scanner rewrites stands for U+10000 to U+10FFFF, as the encoder writes them. */
  predicate SupplementaryOnly(s: seq<Byte>, inDQ: bool) { RewritesOnly(s, inDQ, Supplementary) }

  /** The first `k` bytes start no escape and end no scalar. */
  ghost predicate Plain(s: seq<Byte>, k: nat) {
    k <= |s| && forall j :: 0 <= j < k ==> s[j] != QUOTE && s[j] != BACKSLASH
  }

  lemma {:induction false} PlainPrefix(s: seq<Byte>, k: nat, ok: int -> bool)
    requires Plain(s, k)
    ensures Scan(s, true) == s[..k] + Scan(s[k..], true)
    ensures RewritesOnly(s, true, ok) == RewritesOnly(s[k..], true, ok)
  {
    hide Rewritable, EncodeRune;
    if k > 0 {
      PlainPrefix(s[1..], k - 1, ok);
      assert s[1..][k - 1..] == s[k..] && s[..k] == [s[0]] + s[1..][..k - 1];
      assert Scan(s, true) == [s[0]] + Scan(s[1..], true);
    } else {
      assert s[0..] == s;
    }
  }

  lemma {:induction false} HexNumberLocal(s: seq<Byte>, t: seq<Byte>, n: nat)
    requires AllHex(s, n) && n <= |t| && t[..n] == s[..n]
    ensures AllHex(t, n) && HexNumber(t, n) == HexNumber(s, n)
  {
    forall k | 0 <= k < n ensures t[k] == s[k] { assert t[..n][k] == s[..n][k]; }
    if n > 0 {
      assert t[..n - 1] == t[..n][..n - 1] && s[..n - 1] == s[..n][..n - 1];
      HexNumberLocal(s, t, n - 1);
    }
  }

  lemma EscapeLocal(s: seq<Byte>, t: seq<Byte>)
    requires EscapeAt(s).Some? && EscapeAt(s).value.size <= |t|
             && t[..EscapeAt(s).value.size] == s[..EscapeAt(s).value.size]
    ensures EscapeAt(t) == EscapeAt(s)
  {
    var n, k := DigitsAfter(s[1]), EscapeAt(s).value.size;
    assert t[1] == t[..k][1] == s[..k][1] == s[1];
    assert t[2..][..n] == t[..k][2..] && s[2..][..n] == s[..k][2..];
    HexNumberLocal(s[2..], t[2..], n);
  }

  lemma RuneLocal(s: seq<Byte>, t: seq<Byte>)
    requires DecodeRune(s).Some? && DecodeRune(s).value.size <= |t|
             && t[..DecodeRune(s).value.size] == s[..DecodeRune(s).value.size]
    ensures DecodeRune(t) == DecodeRune(s)
  {
    var n := DecodeRune(s).value.size;
    forall k | 0 <= k < n ensures t[k] == s[k] { assert t[..n][k] == s[..n][k]; }
  }

  /** The next token depends only on its own bytes. */
  lemma HeadLocal(s: seq<Byte>, t: seq<Byte>)
    requires s != [] && Head(s).Some? && Head(s).value.size <= |t| && t[..Head(s).value.size] == s[..Head(s).value.size]
    ensures t != [] && Head(t) == Head(s)
  {
    var n := Head(s).value.size;
    assert t[0] == t[..n][0] == s[..n][0] == s[0];
    if s[0] == BACKSLASH { EscapeLocal(s, t); } else if s[0] != QUOTE { RuneLocal(s, t); }
  }

  lemma EscapeStep(s: seq<Byte>, ok: int -> bool)
    requires |s| >= 2 && s[0] == BACKSLASH && !Rewritable(s)
    ensures Scan(s, true) == [s[0], s[1]] + Scan(s[2..], true)
    ensures RewritesOnly(s, true, ok) == RewritesOnly(s[2..], true, ok)
  {
  }

  lemma CopiedEscape(s: seq<Byte>, n: nat, ok: int -> bool)
    requires |s| >= 2 + n && s[0] == BACKSLASH && AllHex(s[2..], n) && !Rewritable(s)
    ensures Scan(s, true) == s[..2 + n] + Scan(s[2 + n..], true)
    ensures RewritesOnly(s, true, ok) == RewritesOnly(s[2 + n..], true, ok)
  {
    hide Scan, RewritesOnly, Rewritable;
    EscapeStep(s, ok);
    PlainPrefix(s[2..], n, ok);
    SliceOfSlice(s, 2, n);
    assert s[..2 + n] == [s[0], s[1]] + s[2..][..n];
    Regroup([s[0], s[1]], s[2..][..n], Scan(s[2 + n..], true));
  }

  lemma CopiedRune(s: seq<Byte>, ok: int -> bool)
    requires s != [] && s[0] != QUOTE && s[0] != BACKSLASH && DecodeRune(s).Some?
    ensures var n := DecodeRune(s).value.size;
            Scan(s, true) == s[..n] + Scan(s[n..], true) && RewritesOnly(s, true, ok) == RewritesOnly(s[n..], true, ok)
  {
    hide DecodeRune, Scan, RewritesOnly;
    PlainPrefix(s, DecodeRune(s).value.size, ok);
  }

  lemma CopiedQuote(s: seq<Byte>, ok: int -> bool)
    requires s != [] && s[0] == QUOTE
    ensures Scan(s, true) == s[..1] + Scan(s[1..], false)
    ensures RewritesOnly(s, true, ok) == RewritesOnly(s[1..], false, ok)
  {
  }

  /** A token the scanner does not rewrite is copied byte for byte. */
  lemma CopiedToken(s: seq<Byte>, ok: int -> bool)
    requires s != [] && Head(s).Some? && !Rewritable(s)
    ensures var l := Head(s).value;
            && Scan(s, true) == s[..l.size] + Scan(s[l.size..], l.token != Close)
            && RewritesOnly(s, true, ok) == RewritesOnly(s[l.size..], l.token != Close, ok)
  {
    hide DecodeRune, Scan, RewritesOnly, Rewritable, HexNumber;
    if s[0] == BACKSLASH { CopiedEscape(s, DigitsAfter(s[1]), ok); }
    else if s[0] == QUOTE { CopiedQuote(s, ok); }
    else { CopiedRune(s, ok); }
  }

  // ----- which escapes keep their meaning

  /** A code point that reads the same written literally: no blank, control character or quotation
      mark. A backslash does so only as long as nothing follows that it could escape. */
  predicate Kept(cp: int) { cp > 32 && cp != QUOTE }

  predicate NoBackslash(cp: int) { cp != BACKSLASH }

  predicate KeptAnywhere(cp: int) { Kept(cp) && NoBackslash(cp) }

  lemma LiteralHead(cp: nat, rest: seq<Byte>)
    requires Scalar(cp) && NoBackslash(cp)
    ensures EncodeRune(cp) + rest != []
            && (Head(EncodeRune(cp) + rest) == Some(Lexeme(Chr(cp), |EncodeRune(cp)|)) <==> Kept(cp))
    ensures !Kept(cp) ==>
              Head(EncodeRune(cp) + rest).None? || Head(EncodeRune(cp) + rest).value.token in {Close, Blank(cp)}
  {
    hide DecodeRune;
    RuneRoundTrip(cp, rest);
    assert (EncodeRune(cp) + rest)[0] == EncodeRune(cp)[0];
  }

  /** One escape, exactly: its literal reads as the same code point in front of everything that
      could follow if and only if it is no blank, control character, quotation mark or backslash. */
  lemma LiteralReadsAnywhere(cp: nat)
    requires Scalar(cp)
    ensures (forall rest: seq<Byte> :: Head(EncodeRune(cp) + rest) == Some(Lexeme(Chr(cp), |EncodeRune(cp)|))) <==>
            KeptAnywhere(cp)
  {
    hide DecodeRune, Head;
    if cp == BACKSLASH {
      assert Head(EncodeRune(cp) + []).None? by { LoneBackslash(); }
    } else {
      forall rest: seq<Byte>
        ensures Head(EncodeRune(cp) + rest) == Some(Lexeme(Chr(cp), |EncodeRune(cp)|)) <==> Kept(cp)
      {
        LiteralHead(cp, rest);
      }
      assert EncodeRune(cp) + [] != [];
    }
  }

  lemma LoneBackslash()
    ensures EncodeRune(BACKSLASH) + [] == [BACKSLASH] && Head([BACKSLASH]).None?
  {
  }

  lemma RewrittenToken(s: seq<Byte>, out: seq<Byte>)
    requires Rewritable(s) && Head(s).Some? && NoBackslash(HexNumber(s[2..], 8))
    requires out == EncodeRune(HexNumber(s[2..], 8)) + Scan(s[10..], true)
    ensures Head(s) == Some(Lexeme(Chr(HexNumber(s[2..], 8)), 10))
    ensures if Kept(HexNumber(s[2..], 8))
            then Head(out).Some? && Head(out).value.token == Head(s).value.token
              && out[Head(out).value.size..] == Scan(s[10..], true)
            else Head(out).None? || Head(out).value.token != Head(s).value.token
  {
    hide DecodeRune, Scan;
    var cp := HexNumber(s[2..], 8);
    assert Head(s) == Some(Lexeme(Chr(cp), 10));
    LiteralHead(cp, Scan(s[10..], true));
  }

  /** Equal heads: the readings agree exactly if those of the tails do. */
  lemma PrependAgrees(t: Token, a: Option<seq<Token>>, b: Option<seq<Token>>)
    ensures Prepend(t, a) == Prepend(t, b) <==> a == b
  {
    if Prepend(t, a) == Prepend(t, b) && a.Some? {
      assert ([t] + a.value)[1..] == a.value && ([t] + b.value)[1..] == b.value;
    }
  }

  lemma PrependDiffers(t: Token, a: Option<seq<Token>>, u: Token, b: Option<seq<Token>>)
    requires t != u && a.Some?
    ensures Prepend(t, a) != Prepend(u, b)
  {
    if b.Some? { assert ([t] + a.value)[0] == t && ([u] + b.value)[0] == u; }
  }

  lemma DecodeStep(s: seq<Byte>)
    requires s != []
    ensures Decode(s, true) == if Head(s).None? then None
                               else Prepend(Head(s).value.token,
                                            Decode(s[Head(s).value.size..], Head(s).value.token != Close))
  {
  }

  lemma RewrittenAgrees(s: seq<Byte>, out: seq<Byte>)
    requires Rewritable(s) && Decode(s, true).Some? && NoBackslash(HexNumber(s[2..], 8))
    requires out == EncodeRune(HexNumber(s[2..], 8)) + Scan(s[10..], true)
    ensures Decode(s[10..], true).Some?
    ensures Decode(out, true) == Decode(s, true) <==>
            Kept(HexNumber(s[2..], 8)) && Decode(Scan(s[10..], true), true) == Decode(s[10..], true)
  {
    hide Decode, Scan, Head, Rewritable;
    RewritableHere(s);
    DecodeStep(s);
    RewrittenToken(s, out);
    DecodeStep(out);
    var t := Head(s).value.token;
    if Kept(HexNumber(s[2..], 8)) {
      PrependAgrees(t, Decode(Scan(s[10..], true), true), Decode(s[10..], true));
    } else if Head(out).Some? {
      var l := Head(out).value;
      PrependDiffers(t, Decode(s[10..], true), l.token, Decode(out[l.size..], l.token != Close));
    }
  }

  lemma RewritableHere(s: seq<Byte>)
    requires Rewritable(s)
    ensures |s| >= 10 && AllHex(s[2..], 8)
  {
  }

  lemma CopiedAgrees(s: seq<Byte>, out: seq<Byte>, l: Lexeme)
    requires s != [] && Head(s) == Some(l) && out == s[..l.size] + Scan(s[l.size..], l.token != Close)
    ensures Decode(out, true) == Decode(s, true) <==>
            Decode(Scan(s[l.size..], l.token != Close), l.token != Close) == Decode(s[l.size..], l.token != Close)
  {
    hide Decode, Scan, Head;
    assert out[..l.size] == s[..l.size] && out[l.size..] == Scan(s[l.size..], l.token != Close);
    HeadLocal(s, out);
    DecodeStep(s);
    DecodeStep(out);
    PrependAgrees(l.token, Decode(out[l.size..], l.token != Close), Decode(s[l.size..], l.token != Close));
  }

  lemma OutsideAgrees(s: seq<Byte>, out: seq<Byte>)
    requires s != [] && out == [s[0]] + Scan(s[1..], s[0] == QUOTE)
    ensures Decode(out, false) == Decode(s, false) <==>
            Decode(Scan(s[1..], s[0] == QUOTE), s[0] == QUOTE) == Decode(s[1..], s[0] == QUOTE)
  {
    hide Scan, Head;
    assert out[0] == s[0] && out[1..] == Scan(s[1..], s[0] == QUOTE);
    PrependAgrees(if s[0] == QUOTE then Open else Outside(s[0]), Decode(out[1..], s[0] == QUOTE),
                  Decode(s[1..], s[0] == QUOTE));
  }

  lemma {:induction false} ScanAgrees(s: seq<Byte>, inDQ: bool)
    requires RewritesOnly(s, inDQ, NoBackslash) && Decode(s, inDQ).Some?
    ensures Decode(Scan(s, inDQ), inDQ) == Decode(s, inDQ) <==> RewritesOnly(s, inDQ, Kept)
    decreases |s|
  {
    hide Head, DecodeRune, EncodeRune, HexNumber;
    var out := Scan(s, inDQ);
    if s == [] {
    } else if !inDQ {
      OutsideAgrees(s, out);
      ScanAgrees(s[1..], s[0] == QUOTE);
    } else if Rewritable(s) {
      RewrittenAgrees(s, out);
      ScanAgrees(s[10..], true);
    } else {
      var l := Head(s).value;
      CopiedToken(s, NoBackslash);
      CopiedToken(s, Kept);
      CopiedAgrees(s, out, l);
      ScanAgrees(s[l.size..], l.token != Close);
    }
  }

  /** Meaning, exactly, for well-formed bodies that escape no backslash with `\U`: they read the same
      after the rewriting, token for token and byte for byte outside scalars, if and only if no
      rewritten escape stands for a blank, a control character or a quotation mark. */
  lemma MeaningExactly(body: seq<Byte>)
    requires Decode(body, false).Some? && RewritesOnly(body, false, NoBackslash)
    ensures Decode(Scan(body, false), false) == Decode(body, false) <==> RewritesOnly(body, false, Kept)
  {
    ScanAgrees(body, false);
  }

  lemma {:induction false} Widen(s: seq<Byte>, inDQ: bool, ok: int -> bool, wide: int -> bool)
    requires RewritesOnly(s, inDQ, ok) && forall cp :: ok(cp) ==> wide(cp)
    ensures RewritesOnly(s, inDQ, wide)
    decreases |s|
  {
    if s != [] {
      if inDQ && Rewritable(s) { Widen(s[10..], true, ok, wide); }
      else if inDQ && s[0] == BACKSLASH && |s| >= 2 { Widen(s[2..], true, ok, wide); }
      else { Widen(s[1..], Toggled(inDQ, s[0]), ok, wide); }
    }
  }

  /** Meaning: a well-formed body whose rewritten escapes stand for no blank, control character,
      quotation mark or backslash reads the same after the rewriting. */
  lemma MeaningPreserved(body: seq<Byte>)
    requires Decode(body, false).Some? && RewritesOnly(body, false, KeptAnywhere)
    ensures Decode(Scan(body, false), false) == Decode(body, false)
  {
    Widen(body, false, KeptAnywhere, NoBackslash);
    Widen(body, false, KeptAnywhere, Kept);
    MeaningExactly(body);
  }

  /** In particular what the encoder writes, which escapes with `\U` only above U+FFFF. */
  lemma EncoderOutputKept(body: seq<Byte>)
    requires Decode(body, false).Some? && SupplementaryOnly(body, false)
    ensures Decode(Scan(body, false), false) == Decode(body, false)
  {
    Widen(body, false, Supplementary, KeptAnywhere);
    MeaningPreserved(body);
  }

  // ----- a second pass

  /** Some escape of the body would be rewritten. */
  predicate HasRewritable(s: seq<Byte>, inDQ: bool) {
    if s == [] then false
    else if !inDQ then HasRewritable(s[1..], s[0] == QUOTE)
    else if s[0] == BACKSLASH && |s| >= 2 then Rewritable(s) || HasRewritable(s[2..], true)
    else HasRewritable(s[1..], s[0] != QUOTE)
  }

  /** The scanner leaves exactly the bodies without a rewritable escape alone; any other body gets
      shorter. */
  lemma {:induction false} UnchangedIffNone(s: seq<Byte>, inDQ: bool)
    ensures |Scan(s, inDQ)| <= |s|
    ensures if HasRewritable(s, inDQ) then |Scan(s, inDQ)| < |s| else Scan(s, inDQ) == s
    decreases |s|
  {
    if s != [] {
      if inDQ && Rewritable(s) {
        UnchangedIffNone(s[10..], true);
      } else if inDQ && s[0] == BACKSLASH && |s| >= 2 {
        UnchangedIffNone(s[2..], true);
        assert s == [s[0], s[1]] + s[2..];
      } else {
        UnchangedIffNone(s[1..], Toggled(inDQ, s[0]));
        assert s == [s[0]] + s[1..];
      }
    }
  }

  /** Hex digits at the head of the output were there in the input. */
  lemma {:induction false} HexHeadCopied(s: seq<Byte>, n: nat)
    requires SupplementaryOnly(s, true) && AllHex(Scan(s, true), n)
    ensures n <= |s| && Scan(s, true)[..n] == s[..n]
    decreases n
  {
    hide Scan, SupplementaryOnly;
    if n > 0 {
      var out := Scan(s, true);
      assert Hex(out[0]);
      HeadIsPlain(s);
      assert out[1..] == Scan(s[1..], true);
      assert forall k :: 0 <= k < n - 1 ==> out[1..][k] == out[k + 1];
      HexHeadCopied(s[1..], n - 1);
      assert s[..n] == [s[0]] + s[1..][..n - 1] && out[..n] == [s[0]] + out[1..][..n - 1];
    }
  }

  lemma HeadIsPlain(s: seq<Byte>)
    requires SupplementaryOnly(s, true) && Scan(s, true) != [] && Hex(Scan(s, true)[0])
    ensures s != [] && s[0] != BACKSLASH && s[0] != QUOTE && SupplementaryOnly(s[1..], true)
    ensures Scan(s, true) == [s[0]] + Scan(s[1..], true)
  {
    if Rewritable(s) { RuneRoundTrip(HexNumber(s[2..], 8), []); }
  }

  lemma {:induction false} PlainHasNone(s: seq<Byte>, k: nat)
    requires Plain(s, k)
    ensures HasRewritable(s, true) == HasRewritable(s[k..], true)
  {
    if k > 0 {
      PlainHasNone(s[1..], k - 1);
      SliceOfSlice(s, 1, k - 1);
    } else {
      assert s[0..] == s;
    }
  }

  /** An escape that is copied is not rewritable in the output either. */
  lemma CopiedStaysPut(s: seq<Byte>)
    requires |s| >= 2 && s[0] == BACKSLASH && !Rewritable(s) && SupplementaryOnly(s[2..], true)
    ensures !Rewritable([s[0], s[1]] + Scan(s[2..], true))
  {
    hide Scan, SupplementaryOnly, HexNumber;
    var out := [s[0], s[1]] + Scan(s[2..], true);
    assert out[2..] == Scan(s[2..], true);
    if s[1] == CAPITAL_U && AllHex(out[2..], 8) {
      HexHeadCopied(s[2..], 8);
      HexNumberLocal(out[2..], s[2..], 8);
    }
  }

  /** No rewritable escape remains. */
  lemma {:induction false} NoneRemains(s: seq<Byte>, inDQ: bool)
    requires SupplementaryOnly(s, inDQ)
    ensures !HasRewritable(Scan(s, inDQ), inDQ)
    decreases |s|
  {
    var out := Scan(s, inDQ);
    if s == [] {
    } else if inDQ && s[0] == BACKSLASH && |s| >= 2 {
      if Rewritable(s) {
        NoneRemains(s[10..], true);
        RuneRoundTrip(HexNumber(s[2..], 8), []);
        PlainHasNone(out, 4);
        assert out[4..] == Scan(s[10..], true);
      } else {
        NoneRemains(s[2..], true);
        CopiedStaysPut(s);
        assert out[2..] == Scan(s[2..], true);
      }
    } else {
      NoneRemains(s[1..], Toggled(inDQ, s[0]));
      assert out[1..] == Scan(s[1..], Toggled(inDQ, s[0]));
      SingleBackslash(s, inDQ);
    }
  }

  lemma SingleBackslash(s: seq<Byte>, inDQ: bool)
    requires s != [] && !(inDQ && s[0] == BACKSLASH && |s| >= 2)
    ensures s[0] == BACKSLASH && inDQ ==> Scan(s, inDQ) == s
  {
    if s[0] == BACKSLASH && inDQ { assert s[1..] == []; assert s == [s[0]]; }
  }

  /** A second pass changes nothing. */
  lemma SecondPassIdle(body: seq<Byte>)
    requires SupplementaryOnly(body, false)
    ensures Scan(Scan(body, false), false) == Scan(body, false)
  {
    NoneRemains(body, false);
    UnchangedIffNone(Scan(body, false), false);
  }

  // ----- a second pass over a well-formed body

  predicate Harmless(cp: int) { cp != QUOTE && cp != BACKSLASH }

  /** What a harmless escape is rewritten to starts no escape and ends no scalar. */
  lemma LiteralIsPlain(cp: nat, rest: seq<Byte>)
    requires Scalar(cp) && Harmless(cp)
    ensures Plain(EncodeRune(cp) + rest, |EncodeRune(cp)|)
  {
    RuneRoundTrip(cp, rest);
  }

  /** A well-formed escape that is copied is no `\U` escape. */
  lemma CopiedHasNone(s: seq<Byte>, out: seq<Byte>, n: nat)
    requires |s| >= 2 + n && s[0] == BACKSLASH && s[1] != CAPITAL_U && AllHex(s[2..], n)
    requires out == s[..2 + n] + Scan(s[2 + n..], true)
    ensures HasRewritable(out, true) == HasRewritable(Scan(s[2 + n..], true), true)
  {
    hide Scan, HexNumber;
    assert out[0] == s[0] && out[1] == s[1];
    assert forall k :: 0 <= k < n ==> out[2..][k] == s[2..][k];
    PlainHasNone(out[2..], n);
    SliceOfSlice(out, 2, n);
    assert out[2 + n..] == Scan(s[2 + n..], true);
  }

  lemma TokenHasNone(s: seq<Byte>, out: seq<Byte>, l: Lexeme)
    requires s != [] && Head(s) == Some(l) && !Rewritable(s)
    requires out == s[..l.size] + Scan(s[l.size..], l.token != Close)
    ensures HasRewritable(out, true) == HasRewritable(Scan(s[l.size..], l.token != Close), l.token != Close)
  {
    hide Scan, DecodeRune, HexNumber;
    assert out[l.size..] == Scan(s[l.size..], l.token != Close);
    if s[0] == BACKSLASH {
      CopiedHasNone(s, out, DigitsAfter(s[1]));
    } else if s[0] == QUOTE {
      assert out[0] == QUOTE;
    } else {
      assert forall k :: 0 <= k < l.size ==> out[k] == s[k];
      PlainHasNone(out, l.size);
    }
  }

  lemma RewrittenHasNone(s: seq<Byte>, out: seq<Byte>)
    requires Rewritable(s) && Head(s).Some? && Harmless(HexNumber(s[2..], 8))
    requires out == EncodeRune(HexNumber(s[2..], 8)) + Scan(s[10..], true)
    ensures Head(s) == Some(Lexeme(Chr(HexNumber(s[2..], 8)), 10))
    ensures HasRewritable(out, true) == HasRewritable(Scan(s[10..], true), true)
  {
    hide Scan, EncodeRune, DecodeRune;
    var cp := HexNumber(s[2..], 8);
    assert Head(s) == Some(Lexeme(Chr(cp), 10));
    LiteralIsPlain(cp, Scan(s[10..], true));
    PlainHasNone(out, |EncodeRune(cp)|);
    assert out[|EncodeRune(cp)|..] == Scan(s[10..], true);
  }

  /** After a pass over a well-formed body none remains, unless a rewritten escape stood for a quotation
      mark or a backslash. */
  lemma {:induction false} NoneRemainsDecoded(s: seq<Byte>, inDQ: bool)
    requires Decode(s, inDQ).Some? && RewritesOnly(s, inDQ, Harmless)
    ensures !HasRewritable(Scan(s, inDQ), inDQ)
    decreases |s|
  {
    hide Head, DecodeRune, EncodeRune, HexNumber;
    var out := Scan(s, inDQ);
    if s == [] {
    } else if !inDQ {
      NoneRemainsDecoded(s[1..], s[0] == QUOTE);
      assert out[0] == s[0] && out[1..] == Scan(s[1..], s[0] == QUOTE);
    } else if Rewritable(s) {
      RewrittenHasNone(s, out);
      NoneRemainsDecoded(s[10..], true);
    } else {
      var l := Head(s).value;
      CopiedToken(s, Harmless);
      NoneRemainsDecoded(s[l.size..], l.token != Close);
      TokenHasNone(s, out, l);
    }
  }

  /** A second pass over such a body changes nothing. */
  lemma SecondPassIdleDecoded(body: seq<Byte>)
    requires Decode(body, false).Some? && RewritesOnly(body, false, Harmless)
    ensures Scan(Scan(body, false), false) == Scan(body, false)
  {
    NoneRemainsDecoded(body, false);
    UnchangedIffNone(Scan(body, false), false);
  }

  /** An escaped backslash in front of `U` keeps what follows from being read as an escape. */
  lemma EscapedBackslashSurvives(digits: seq<Byte>, rest: seq<Byte>)
    requires |digits| == 8 && AllHex(digits, 8)
    ensures var s := [BACKSLASH, BACKSLASH, CAPITAL_U] + digits; Scan(s + rest, true) == s + Scan(rest, true)
  {
    var s := [BACKSLASH, BACKSLASH, CAPITAL_U] + digits;
    var t := s + rest;
    assert t[2..] == [CAPITAL_U] + digits + rest;
    PlainPrefix(t[2..], 9, NoBackslash);
    assert t[2..][..9] == [CAPITAL_U] + digits && t[2..][9..] == rest;
    assert Scan(t, true) == [BACKSLASH, BACKSLASH] + Scan(t[2..], true);
  }

  // ----- the escapes of a quotation mark and of a backslash

  /** An opening mark, `\U000000` with two more digits, and then `tail`. */
  function Escaped(high: Byte, low: Byte, tail: seq<Byte>): (body: seq<Byte>) {
    [QUOTE, BACKSLASH, CAPITAL_U, 48, 48, 48, 48, 48, 48, high, low] + tail
  }

  lemma SmallNumber(s: seq<Byte>)
    requires |s| >= 8 && AllHex(s, 8) && forall k :: 0 <= k < 6 ==> s[k] == 48
    ensures HexNumber(s, 8) == 16 * Digit(s[6]) + Digit(s[7])
  {
    assert HexNumber(s, 2) == 0 by { assert HexNumber(s, 1) == 0; }
    assert HexNumber(s, 4) == 0 by { assert HexNumber(s, 3) == 0; }
    assert HexNumber(s, 6) == 0 by { assert HexNumber(s, 5) == 0; }
    assert HexNumber(s, 7) == Digit(s[6]);
  }

  lemma EscapedParts(high: Byte, low: Byte, tail: seq<Byte>)
    requires Hex(high) && Hex(low) && Digit(high) < 8
    ensures var e := Escaped(high, low, tail)[1..];
            && Rewritable(e) && HexNumber(e[2..], 8) == 16 * Digit(high) + Digit(low)
            && Head(e) == Some(Lexeme(Chr(16 * Digit(high) + Digit(low)), 10))
  {
    hide DecodeRune, Simple, HexNumber;
    SmallNumber(Escaped(high, low, tail)[1..][2..]);
  }

  lemma EscapedLaw(high: Byte, low: Byte, tail: seq<Byte>)
    requires Hex(high) && Hex(low) && Digit(high) < 8
    ensures var cp := 16 * Digit(high) + Digit(low);
            && Decode(Escaped(high, low, tail), false) == Prepend(Open, Prepend(Chr(cp), Decode(tail, true)))
            && Scan(Escaped(high, low, tail), false) == [QUOTE, cp] + Scan(tail, true)
  {
    hide DecodeRune, Simple, HexNumber;
    var body := Escaped(high, low, tail);
    var e, cp := body[1..], 16 * Digit(high) + Digit(low);
    EscapedParts(high, low, tail);
    OpensScalar(e);
    assert body == [QUOTE] + e && e[10..] == tail && EncodeRune(cp) == [cp];
    assert Scan(e, true) == [cp] + Scan(tail, true);
    assert [QUOTE] + ([cp] + Scan(tail, true)) == [QUOTE, cp] + Scan(tail, true);
  }

  lemma ShortBodies()
    ensures Decode([QUOTE], true) == Some([Close]) && Scan([QUOTE], true) == [QUOTE]
    ensures Decode([QUOTE, QUOTE, QUOTE], false) == None && Decode([QUOTE, BACKSLASH, QUOTE], false) == None
  {
    assert [QUOTE][1..] == [] && [QUOTE, QUOTE][1..] == [QUOTE] && [QUOTE, QUOTE, QUOTE][1..] == [QUOTE, QUOTE];
    var none: seq<Token> := [];
    assert [Close] + none == [Close] && Decode([], false) == Some(none);
    assert Scan([], false) == [];
    assert Decode([QUOTE], false) == None;
    assert Decode([QUOTE, QUOTE], true) == None;
    assert [QUOTE, BACKSLASH, QUOTE][1..] == [BACKSLASH, QUOTE] && [BACKSLASH, QUOTE][2..] == [];
    assert Decode([BACKSLASH, QUOTE], true) == None;
  }

  /** The escape of a quotation mark is rewritten into one that ends the scalar. */
  lemma QuoteEscapeBreaks()
    ensures var body := Escaped(50, 50, [QUOTE]);
            Decode(body, false) == Some([Open, Chr(34), Close]) && Decode(Scan(body, false), false) == None
  {
    EscapedLaw(50, 50, [QUOTE]);
    ShortBodies();
    assert [Open] + ([Chr(34)] + [Close]) == [Open, Chr(34), Close];
    assert [QUOTE, 34] + [QUOTE] == [QUOTE, QUOTE, QUOTE];
  }

  /** The escape of a backslash is rewritten into one that escapes the closing quotation mark. */
  lemma BackslashEscapeBreaks()
    ensures var body := Escaped(53, 67, [QUOTE]);
            Decode(body, false) == Some([Open, Chr(92), Close]) && Decode(Scan(body, false), false) == None
  {
    EscapedLaw(53, 67, [QUOTE]);
    ShortBodies();
    assert [Open] + ([Chr(92)] + [Close]) == [Open, Chr(92), Close];
    assert [QUOTE, 92] + [QUOTE] == [QUOTE, BACKSLASH, QUOTE];
  }

  lemma SlashTails()
    ensures Scan([BACKSLASH, 47, QUOTE], true) == [BACKSLASH, 47, QUOTE]
    ensures Decode([BACKSLASH, 47, QUOTE], true) == Some([Chr(47), Close])
    ensures Decode([BACKSLASH, BACKSLASH, 47, QUOTE], true) == Some([Chr(92), Chr(47), Close])
  {
    ShortBodies();
    assert [BACKSLASH, 47, QUOTE][2..] == [QUOTE] && [BACKSLASH, 47] + [QUOTE] == [BACKSLASH, 47, QUOTE];
    assert [Chr(47)] + [Close] == [Chr(47), Close];
    assert [BACKSLASH, BACKSLASH, 47, QUOTE][2..] == [47, QUOTE] && [47, QUOTE][1..] == [QUOTE];
    assert Head([47, QUOTE]) == Some(Lexeme(Chr(47), 1));
    assert Decode([47, QUOTE], true) == Some([Chr(47), Close]);
    assert [Chr(92)] + [Chr(47), Close] == [Chr(92), Chr(47), Close];
  }

  /** But not always: in front of an escaped slash the backslash pairs up with the next one, and
      the two tokens are read as they were. */
  lemma BackslashEscapeCanBeKept()
    ensures var body := Escaped(53, 67, [BACKSLASH, 47, QUOTE]);
            && !RewritesOnly(body, false, NoBackslash)
            && Decode(body, false).Some? && Decode(Scan(body, false), false) == Decode(body, false)
  {
    hide Decode, Scan;
    var tail := [BACKSLASH, 47, QUOTE];
    EscapedLaw(53, 67, tail);
    SlashTails();
    assert [QUOTE, 92] + tail == [QUOTE] + [BACKSLASH, BACKSLASH, 47, QUOTE];
    OpensScalar([BACKSLASH, BACKSLASH, 47, QUOTE]);
    assert [Chr(92)] + [Chr(47), Close] == [Chr(92), Chr(47), Close];
    EscapedParts(53, 67, tail);
  }

  lemma OpensScalar(s: seq<Byte>)
    ensures Decode([QUOTE] + s, false) == Prepend(Open, Decode(s, true))
  {
    assert ([QUOTE] + s)[1..] == s;
  }

  // ----- bodies that a second pass changes

  /** `U` and eight digits, without a backslash in front. */
  function Tail(high: Byte, low: Byte, rest: seq<Byte>): (s: seq<Byte>) {
    [CAPITAL_U, 48, 48, 48, 48, 48, 48, high, low] + rest
  }

  lemma TailLaw(high: Byte, low: Byte, rest: seq<Byte>)
    requires Hex(high) && Hex(low) && Digit(high) < 8
    ensures Rewritable([BACKSLASH] + Tail(high, low, rest)) && ([BACKSLASH] + Tail(high, low, rest))[10..] == rest
    ensures Scan([BACKSLASH] + Tail(high, low, rest), true) == [16 * Digit(high) + Digit(low)] + Scan(rest, true)
    ensures Plain(Tail(high, low, rest), 9) && Tail(high, low, rest)[9..] == rest
  {
    hide Scan;
    var e := [BACKSLASH] + Tail(high, low, rest);
    assert e == Escaped(high, low, rest)[1..];
    EscapedParts(high, low, rest);
    RewritingStep(e);
    assert e[10..] == rest;
  }

  lemma RewritingStep(s: seq<Byte>)
    requires Rewritable(s)
    ensures Scan(s, true) == EncodeRune(HexNumber(s[2..], 8)) + Scan(s[10..], true)
  {
  }

  lemma OpensScan(s: seq<Byte>)
    ensures Scan([QUOTE] + s, false) == [QUOTE] + Scan(s, true)
    ensures HasRewritable([QUOTE] + s, false) == HasRewritable(s, true)
  {
    assert ([QUOTE] + s)[1..] == s;
  }

  /** A rewritten backslash in front of `U` and eight digits makes an escape. */
  lemma BackslashUndoesIdle()
    ensures var body := Escaped(53, 67, Tail(52, 49, [QUOTE])); Scan(Scan(body, false), false) != Scan(body, false)
  {
    hide Scan, HasRewritable, Tail, Escaped, Rewritable, HexNumber;
    var tail := Tail(52, 49, [QUOTE]);
    TailLaw(52, 49, [QUOTE]);
    EscapedLaw(53, 67, tail);
    PlainPrefix(tail, 9, Harmless);
    ShortBodies();
    assert tail[..9] + [QUOTE] == tail;
    var out := Scan(Escaped(53, 67, tail), false);
    assert out == [QUOTE] + ([BACKSLASH] + tail);
    OpensScan([BACKSLASH] + tail);
    RewritableIsOne([BACKSLASH] + tail);
    UnchangedIffNone(out, false);
  }

  lemma RewritableIsOne(s: seq<Byte>)
    requires Rewritable(s)
    ensures HasRewritable(s, true)
  {
  }

  /** A rewritten quotation mark swaps inside and outside for the second pass. */
  lemma QuoteUndoesIdle()
    ensures var body := Escaped(50, 50, [QUOTE] + ([BACKSLASH] + Tail(52, 49, [])));
            Scan(Scan(body, false), false) != Scan(body, false)
  {
    hide Scan, HasRewritable, Tail, Escaped, Rewritable, HexNumber;
    var e := [BACKSLASH] + Tail(52, 49, []);
    var tail := [QUOTE] + e;
    TailLaw(52, 49, []);
    EscapedLaw(50, 50, tail);
    ClosesScan(e);
    OutsideCopied(e);
    var out := Scan(Escaped(50, 50, tail), false);
    assert out == [QUOTE] + ([QUOTE] + ([QUOTE] + e));
    OpensScan([QUOTE] + ([QUOTE] + e));
    ClosesScan([QUOTE] + e);
    OpensScan(e);
    RewritableIsOne(e);
    UnchangedIffNone(out, false);
  }

  lemma ClosesScan(s: seq<Byte>)
    ensures Scan([QUOTE] + s, true) == [QUOTE] + Scan(s, false)
    ensures HasRewritable([QUOTE] + s, true) == HasRewritable(s, false)
  {
    assert ([QUOTE] + s)[1..] == s;
  }

  lemma {:induction false} OutsideCopied(s: seq<Byte>)
    requires forall k :: 0 <= k < |s| ==> s[k] != QUOTE
    ensures Scan(s, false) == s
  {
    if s != [] {
      OutsideCopied(s[1..]);
      assert s == [s[0]] + s[1..];
    }
  }

  // ----- hexadecimal digits, from the printing side

  /** `b` is the digit for `d`, in capitals or not. */
  ghost predicate Writes(b: Byte, d: nat)
    requires d < 16
  {
    b == "0123456789ABCDEF"[d] as int || b == "0123456789abcdef"[d] as int
  }

  /** The first `n` bytes are the digits of `v`. */
  ghost predicate Spells(s: seq<Byte>, n: nat, v: nat) {
    n <= |s| && if n == 0 then v == 0 else Writes(s[n - 1], v % 16) && Spells(s, n - 1, v / 16)
  }

  /** Which bytes are digits, and what they stand for. */
  lemma HexExactly(b: Byte)
    ensures Hex(b) <==> exists d: nat :: d < 16 && Writes(b, d)
    ensures forall d: nat :: d < 16 && Writes(b, d) ==> Digit(b) == d
  {
    forall d: nat | d < 16 && Writes(b, d) ensures Hex(b) && Digit(b) == d {
      assert "0123456789ABCDEF"[d] as int == if d < 10 then 48 + d else 55 + d;
      assert "0123456789abcdef"[d] as int == if d < 10 then 48 + d else 87 + d;
    }
    if Hex(b) {
      var d := Digit(b);
      assert "0123456789ABCDEF"[d] as int == if d < 10 then 48 + d else 55 + d;
      assert "0123456789abcdef"[d] as int == if d < 10 then 48 + d else 87 + d;
      assert Writes(b, d);
    }
  }

  /** Reading is the inverse of writing: the number read is `v` exactly for the digits of `v`. */
  lemma {:induction false} SpellsExactly(s: seq<Byte>, n: nat, v: nat)
    ensures Spells(s, n, v) <==> AllHex(s, n) && HexNumber(s, n) == v
  {
    hide Hex, Digit, Writes;
    if 0 < n <= |s| {
      var b := s[n - 1];
      HexExactly(b);
      SpellsExactly(s, n - 1, v / 16);
      if Spells(s, n, v) {
        assert Writes(b, v % 16);
      }
      if AllHex(s, n) && HexNumber(s, n) == v {
        SpellsExactly(s, n - 1, HexNumber(s, n - 1));
        DividesBack(HexNumber(s, n - 1), Digit(b));
        var d: nat :| d < 16 && Writes(b, d);
      }
    }
  }

  lemma DividesBack(h: nat, d: nat)
    requires d < 16
    ensures (16 * h + d) / 16 == h && (16 * h + d) % 16 == d
  {
  }

  /** Exactly which escapes are rewritten: a backslash, `U`, and the eight digits of a number below 2^31. */
  lemma RewritableExactly(s: seq<Byte>)
    ensures Rewritable(s) <==>
            |s| >= 10 && s[0] == 92 && s[1] == 85 && exists v: nat :: Spells(s[2..], 8, v) && v < 0x8000_0000
  {
    hide HexNumber, Hex, Spells;
    if |s| >= 10 {
      if AllHex(s[2..], 8) { SpellsExactly(s[2..], 8, HexNumber(s[2..], 8)); }
      forall v: nat { SpellsExactly(s[2..], 8, v); }
    }
  }

  /** The `n` digits of `v`, most significant first. */
  function PrintHex(capitals: bool, v: nat, n: nat): (s: seq<Byte>)
    ensures |s| == n
  {
    if n == 0 then [] else PrintHex(capitals, v / 16, n - 1) + [DigitOf(capitals, v % 16)]
  }

  function DigitOf(capitals: bool, d: nat): (b: Byte)
    requires d < 16
  {
    var c := if capitals then "0123456789ABCDEF"[d] else "0123456789abcdef"[d];
    assert c < 128 as char;
    c as int
  }

  function Capacity(n: nat): (m: nat)
    ensures m > 0
  {
    if n == 0 then 1 else 16 * Capacity(n - 1)
  }

  lemma {:induction false} SpellsLocal(s: seq<Byte>, t: seq<Byte>, n: nat, v: nat)
    requires n <= |s| && s <= t
    ensures Spells(s, n, v) <==> Spells(t, n, v)
  {
    if n > 0 { SpellsLocal(s, t, n - 1, v / 16); }
  }

  lemma {:induction false} PrintSpells(capitals: bool, v: nat, n: nat)
    requires v < Capacity(n)
    ensures Spells(PrintHex(capitals, v, n), n, v)
  {
    if n > 0 {
      PrintSpells(capitals, v / 16, n - 1);
      SpellsLocal(PrintHex(capitals, v / 16, n - 1), PrintHex(capitals, v, n), n - 1, v / 16);
    }
  }

  lemma EightDigits()
    ensures Capacity(8) == 0x1_0000_0000
  {
    assert Capacity(4) == 0x1_0000;
    assert Capacity(6) == 0x100_0000;
  }

  /** Exactly what a code point is encoded as: a lead byte and continuation bytes that add up to it, in the
      shortest form; what is no scalar value becomes U+FFFD. */
  lemma EncodeRuneExactly(cp: nat)
    ensures var r := EncodeRune(cp);
            if 0xD800 <= cp < 0xE000 || cp > 0x10FFFF then r == [0xEF, 0xBF, 0xBD]
            else if cp < 0x80 then r == [cp]
            else (forall k :: 1 <= k < |r| ==> 0x80 <= r[k] < 0xC0)
                 && (if cp < 0x800 then |r| == 2 && cp == (r[0] - 0xC0) as int * 64 + (r[1] - 0x80) as int
                     else if cp < 0x10000 then
                       |r| == 3 && cp == (r[0] - 0xE0) as int * 4096 + (r[1] - 0x80) as int * 64 + (r[2] - 0x80) as int
                     else |r| == 4 && cp == (r[0] - 0xF0) as int * 262144 + (r[1] - 0x80) as int * 4096
                                            + (r[2] - 0x80) as int * 64 + (r[3] - 0x80) as int)
  {
    Base64Digits(cp);
  }

  /** What the rewriting is for: whatever its digits' case, the escape of a code point beyond U+FFFF becomes
      the four bytes of its UTF-8 form. */
  lemma SupplementaryRewritten(cp: nat, capitals: bool, rest: seq<Byte>)
    requires 0x10000 <= cp <= 0x10FFFF
    ensures Scan([34, 92, 85] + PrintHex(capitals, cp, 8) + rest, false)
         == [34] + [0xF0 + cp / 262144, 0x80 + cp / 4096 % 64, 0x80 + cp / 64 % 64, 0x80 + cp % 64] + Scan(rest, true)
  {
    hide Scan, PrintHex, HexNumber;
    var ds := PrintHex(capitals, cp, 8);
    var e := [BACKSLASH, CAPITAL_U] + ds + rest;
    EightDigits();
    PrintSpells(capitals, cp, 8);
    assert e[2..] == ds + rest && e[10..] == rest;
    SpellsLocal(ds, e[2..], 8, cp);
    SpellsExactly(e[2..], 8, cp);
    RewritingStep(e);
    assert [34, 92, 85] + ds + rest == [QUOTE] + e;
    OpensScan(e);
    assert [34] + (EncodeRune(cp) + Scan(rest, true)) == [34] + EncodeRune(cp) + Scan(rest, true);
  }

  /** In particular a scalar that holds nothing else. */
  lemma SupplementaryScalar(cp: nat, capitals: bool)
    requires 0x10000 <= cp <= 0x10FFFF
    ensures Scan([34, 92, 85] + PrintHex(capitals, cp, 8) + [34], false)
         == [34, 0xF0 + cp / 262144, 0x80 + cp / 4096 % 64, 0x80 + cp / 64 % 64, 0x80 + cp % 64, 34]
  {
    hide Scan, PrintHex;
    SupplementaryRewritten(cp, capitals, [34]);
    ShortBodies();
  }
}
