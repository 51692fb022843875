/** The Subscription-Userinfo header: printing it, parsing it, and the round trip. */
module Userinfo {
  import opened Text
  import opened Yaml

  // ----- decimal numbers

  function DigitChar(d: nat): (c: char)
    requires d < 10
  {
    '0' + d as char
  }

  predicate IsDigit(c: char) { '0' <= c <= '9' }

  function DigitValue(c: char): (d: nat)
    requires IsDigit(c)
  {
    (c - '0') as nat
  }

  function Digits(n: nat): (s: string)
    ensures s != "" && forall k :: 0 <= k < |s| ==> IsDigit(s[k])
  {
    if n < 10 then [DigitChar(n)] else Digits(n / 10) + [DigitChar(n % 10)]
  }

  /** `%d` */
  function Print(n: int): (s: string)
    ensures s != "" && IsDigit(s[|s| - 1]) && (IsDigit(s[0]) || s[0] == '-')
    ensures forall k :: 0 <= k < |s| ==> IsDigit(s[k]) || s[k] == '-'
  {
    if n < 0 then "-" + Digits(-n) else Digits(n)
  }

  /** The value of a string of digits; None for any other string, and for none at all. */
  function ParseDigits(s: string): (n: Option<nat>) {
    if s == "" then None
    else if !IsDigit(s[|s| - 1]) then None
    else if |s| == 1 then Some(DigitValue(s[0]))
    else match ParseDigits(s[..|s| - 1])
      case None => None
      case Some(m) => Some(10 * m + DigitValue(s[|s| - 1]))
  }

  predicate Int64(n: int) { -0x8000_0000_0000_0000 <= n < 0x8000_0000_0000_0000 }

  /** `strconv.ParseInt(s, 10, 64)`: an optional sign, digits, and the 64-bit range. */
  function ParseInt(s: string): (n: Option<int>)
    ensures n.Some? ==> Int64(n.value)
  {
    var signed := s != "" && (s[0] == '-' || s[0] == '+');
    match ParseDigits(if signed then s[1..] else s)
    case None => None
    case Some(m) =>
      var v: int := if signed && s[0] == '-' then -(m as int) else m;
      if Int64(v) then Some(v) else None
  }

  lemma {:induction false} ParseOfDigits(n: nat)
    ensures ParseDigits(Digits(n)) == Some(n)
  {
    if n >= 10 {
      ParseOfDigits(n / 10);
      var s := Digits(n);
      assert s[..|s| - 1] == Digits(n / 10);
    }
  }

  /** Every 64-bit number survives printing and parsing. */
  lemma ParseOfPrint(n: int)
    requires Int64(n)
    ensures ParseInt(Print(n)) == Some(n)
  {
    if n < 0 {
      ParseOfDigits(-n);
      assert Print(n)[1..] == Digits(-n);
    } else {
      ParseOfDigits(n);
      assert IsDigit(Print(n)[0]);
    }
  }

  // ----- trimming

  /** `unicode.IsSpace` */
  predicate IsSpace(c: char) {
    var u := c as int;
    9 <= u <= 13 || u in {0x20, 0x85, 0xA0, 0x1680, 0x2028, 0x2029, 0x202F, 0x205F, 0x3000} || 0x2000 <= u <= 0x200A
  }

  function TrimLeft(s: string): (r: string)
    ensures |r| <= |s|
  {
    if s != "" && IsSpace(s[0]) then TrimLeft(s[1..]) else s
  }

  function TrimRight(s: string): (r: string)
    ensures |r| <= |s|
  {
    if s != "" && IsSpace(s[|s| - 1]) then TrimRight(s[..|s| - 1]) else s
  }

  /** `strings.TrimSpace` */
  function Trim(s: string): (r: string) { TrimRight(TrimLeft(s)) }

  ghost predicate Trimmed(s: string) { s != "" && !IsSpace(s[0]) && !IsSpace(s[|s| - 1]) }

  lemma TrimKeeps(s: string)
    requires Trimmed(s)
    ensures Trim(s) == s && Trim(" " + s) == s
  {
    assert (" " + s)[1..] == s;
    assert TrimLeft(s) == s && TrimLeft(" " + s) == s;
  }

  // ----- parsing

  datatype Info = Info(upload: int, download: int, total: int, expire: int)

  datatype Problem = EmptyHeader | MalformedPair(field: string) | NotAnInteger(key: string,
                                                 text: string) | NothingRecognised

  datatype Result = Parsed(info: Info, missing: seq<string>) | Unparseable(why: Problem)

  const FIELDS := ["upload", "download", "total", "expire"]

  /** The loop's state: the numbers so far and the recognised keys. */
  datatype Acc = Acc(info: Info, seen: set<string>) | Stopped(why: Problem)

  function Store(info: Info, key: string, n: int): (r: Info) {
    if key == "upload" then info.(upload := n)
    else if key == "download" then info.(download := n)
    else if key == "total" then info.(total := n)
    else if key == "expire" then info.(expire := n)
    else info
  }

  /** One field of the header. */
  function AddField(acc: Acc, raw: string, lower: map<char, char>): (r: Acc) {
    if acc.Stopped? then acc else
      var field := Trim(raw);
      if field == "" then acc else
        var eq := IndexOf(field, '=');
        if eq == |field| || eq == 0 then Stopped(MalformedPair(field)) else
          var key, text := ToLower(Trim(field[..eq]), lower), Trim(field[eq + 1..]);
          match ParseInt(text)
          case None => Stopped(NotAnInteger(key, text))
          case Some(n) => if key in FIELDS then Acc(Store(acc.info, key, n), acc.seen + {key}) else acc
  }

  function AddFields(fields: seq<string>, lower: map<char, char>): (r: Acc) {
    if fields == [] then Acc(Info(0, 0, 0, 0), {})
       else AddField(AddFields(fields[..|fields| - 1], lower), fields[|fields| - 1], lower)
  }

  /** The wanted fields that were not seen, in order. */
  function Missing(wants: seq<string>, seen: set<string>): (r: seq<string>) {
    if wants == [] then [] else
      var w := wants[|wants| - 1];
      Missing(wants[..|wants| - 1], seen) + (if w in seen then [] else [w])
  }

  function Parse(s: string, lower: map<char, char>): (r: Result) {
    var t := Trim(s);
    if t == "" then Unparseable(EmptyHeader) else
      match AddFields(Split(t, ';'), lower)
      case Stopped(why) => Unparseable(why)
      case Acc(info, seen) =>
        var missing := Missing(FIELDS, seen);
        if |missing| == 4 then Unparseable(NothingRecognised) else Parsed(info, missing)
  }

  lemma NoFields(fields: seq<string>, lower: map<char, char>)
    requires fields == []
    ensures AddFields(fields, lower) == Acc(Info(0, 0, 0, 0), {})
  {
  }

  lemma FieldsNext(fields: seq<string>, i: nat, lower: map<char, char>)
    requires i < |fields|
    ensures AddFields(fields[..i + 1], lower) == AddField(AddFields(fields[..i], lower), fields[i], lower)
  {
    assert fields[..i + 1][..i] == fields[..i];
  }

  lemma StoppedStays(fields: seq<string>, i: nat, lower: map<char, char>)
    requires i <= |fields| && AddFields(fields[..i], lower).Stopped?
    ensures AddFields(fields, lower) == AddFields(fields[..i], lower)
    decreases |fields| - i
  {
    if i < |fields| {
      FieldsNext(fields, i, lower);
      StoppedStays(fields, i + 1, lower);
    } else {
      assert fields[..i] == fields;
    }
  }

  /** The missing-field loop. */
  method FindMissing(seen: set<string>) returns (missing: seq<string>)
    ensures missing == Missing(FIELDS, seen)
  {
    missing := [];
    for i := 0 to |FIELDS|
      invariant missing == Missing(FIELDS[..i], seen)
    {
      assert FIELDS[..i + 1][..i] == FIELDS[..i];
      if FIELDS[i] !in seen { missing := missing + [FIELDS[i]]; }
    }
    assert FIELDS[..|FIELDS|] == FIELDS;
  }

  /** The switch on the key; unknown keys are ignored. */
  method StoreField(info: Info, seen: set<string>, key: string, n: int) returns (out: Info, seen': set<string>)
    ensures if key in FIELDS then out == Store(info, key, n) && seen' == seen + {key} else out == info && seen' == seen
  {
    match key
    case "upload" => return info.(upload := n), seen + {"upload"};
    case "download" => return info.(download := n), seen + {"download"};
    case "total" => return info.(total := n), seen + {"total"};
    case "expire" => return info.(expire := n), seen + {"expire"};
    case _ => return info, seen;
  }

  /** `ParseSubscriptionUserinfo` */
  method ParseSubscriptionUserinfo(header: string, lower: map<char, char>) returns (r: Result)
    ensures r == Parse(header, lower)
  {
    hide ParseInt, Trim, IndexOf, Split, Missing, Store, ToLower, AddFields;
    var s := Trim(header);
    if s == "" { return Unparseable(EmptyHeader); }
    var out, seen := Info(0, 0, 0, 0), {};
    var fields := Split(s, ';');
    assert AddFields(fields[..0], lower) == Acc(out, seen) by { NoFields(fields[..0], lower); }
    for i := 0 to |fields|
      invariant AddFields(fields[..i], lower) == Acc(out, seen)
    {
      FieldsNext(fields, i, lower);
      var field := Trim(fields[i]);
      if field == "" { continue; }
      var eq := IndexOf(field, '=');
      if eq == |field| || eq == 0 {
        StoppedStays(fields, i + 1, lower);
        return Unparseable(MalformedPair(field));
      }
      var key, text := ToLower(Trim(field[..eq]), lower), Trim(field[eq + 1..]);
      var n := ParseInt(text);
      if n.None? {
        StoppedStays(fields, i + 1, lower);
        return Unparseable(NotAnInteger(key, text));
      }
      out, seen := StoreField(out, seen, key, n.value);
    }
    assert fields[..|fields|] == fields;
    var missing := FindMissing(seen);
    if |missing| == 4 { return Unparseable(NothingRecognised); }
    return Parsed(out, missing);
  }

  // ----- the round trip

  function Field(key: string, n: int): (s: string) { key + "=" + Print(n) }

  /** The header line `Render` writes. */
  function Emit(i: Info): (s: string) {
    Field("upload", i.upload) + "; " + Field("download", i.download) + "; " + Field("total", i.total) + "; "
      + Field("expire", i.expire)
  }

  lemma LowerKeeps(key: string, lower: map<char, char>)
    requires key in FIELDS
    ensures ToLower(key, lower) == key && Trimmed(key) && '=' !in key && ';' !in key
  {
  }

  lemma PrintIsTrimmed(n: int)
    ensures Trimmed(Print(n)) && ';' !in Print(n)
  {
  }

  lemma FieldShape(key: string, n: int, lower: map<char, char>)
    requires key in FIELDS
    ensures var field := Field(key, n);
            && Trimmed(field) && Trimmed(key) && Trimmed(Print(n)) && ';' !in field && ToLower(key, lower) == key
            && 0 < |key| < |field| && IndexOf(field, '=') == |key| && field[..|key|] == key
               && field[|key| + 1..] == Print(n)
  {
    hide IndexOf, Print;
    var field := Field(key, n);
    LowerKeeps(key, lower);
    PrintIsTrimmed(n);
    assert field[|field| - 1] == Print(n)[|Print(n)| - 1] && field[|key|] == '=';
    IndexOfIs(field, '=', |key|);
  }

  /** A printed field is read back as its key and number. */
  lemma FieldLaw(acc: Acc, key: string, n: int, lead: string, lower: map<char, char>)
    requires acc.Acc? && key in FIELDS && Int64(n) && lead in {"", " "}
    ensures AddField(acc, lead + Field(key, n), lower) == Acc(Store(acc.info, key, n), acc.seen + {key})
    ensures ';' !in lead + Field(key, n)
  {
    hide Trim, ParseInt, IndexOf, Print, ToLower, Field;
    var field := Field(key, n);
    assert "" + field == field;
    FieldShape(key, n, lower);
    TrimKeeps(field);
    TrimKeeps(key);
    TrimKeeps(Print(n));
    ParseOfPrint(n);
  }

  lemma FoldStep(fields: seq<string>, field: string, lower: map<char, char>)
    ensures AddFields(fields + [field], lower) == AddField(AddFields(fields, lower), field, lower)
  {
    assert (fields + [field])[..|fields|] == fields;
  }

  function Pieces(i: Info): (r: seq<string>) {
    ["" + Field("upload", i.upload), " " + Field("download", i.download), " " + Field("total", i.total), " "
      + Field("expire", i.expire)]
  }

  lemma PiecesRead(i: Info, lower: map<char, char>)
    requires Int64(i.upload) && Int64(i.download) && Int64(i.total) && Int64(i.expire)
    ensures AddFields(Pieces(i), lower) == Acc(i, {"upload", "download", "total", "expire"})
    ensures forall k :: 0 <= k < 4 ==> ';' !in Pieces(i)[k]
  {
    hide AddField, Field;
    var p := Pieces(i);
    var a0 := AddFields([], lower);
    FieldLaw(a0, "upload", i.upload, "", lower);
    FoldStep([], p[0], lower);
    var a1 := AddFields([] + [p[0]], lower);
    FieldLaw(a1, "download", i.download, " ", lower);
    FoldStep([] + [p[0]], p[1], lower);
    var a2 := AddFields([] + [p[0]] + [p[1]], lower);
    FieldLaw(a2, "total", i.total, " ", lower);
    FoldStep([] + [p[0]] + [p[1]], p[2], lower);
    var a3 := AddFields([] + [p[0]] + [p[1]] + [p[2]], lower);
    FieldLaw(a3, "expire", i.expire, " ", lower);
    FoldStep([] + [p[0]] + [p[1]] + [p[2]], p[3], lower);
    assert [] + [p[0]] + [p[1]] + [p[2]] + [p[3]] == p;
  }

  lemma JoinFour(a: string, b: string, c: string, d: string)
    ensures Join([a, b, c, d], ';') == a + ";" + (b + ";" + (c + ";" + d))
  {
    assert [a, b, c, d][1..] == [b, c, d] && [b, c, d][1..] == [c, d] && [c, d][1..] == [d];
    assert Join([d], ';') == d && Join([c, d], ';') == c + ";" + d && Join([b, c, d], ';') == b + ";" + (c + ";" + d);
  }

  lemma SpaceJoins(a: string, b: string, c: string, d: string)
    ensures a + "; " + b + "; " + c + "; " + d == "" + a + ";" + (" " + b + ";" + (" " + c + ";" + (" " + d)))
  {
  }

  lemma EmitIsJoin(i: Info)
    ensures Emit(i) == Join(Pieces(i), ';')
  {
    hide Field, Join;
    var p := Pieces(i);
    JoinFour(p[0], p[1], p[2], p[3]);
    SpaceJoins(Field("upload", i.upload), Field("download", i.download), Field("total", i.total),
               Field("expire", i.expire));
  }

  lemma NothingMissing()
    ensures Missing(FIELDS, {"upload", "download", "total", "expire"}) == []
  {
    var seen := {"upload", "download", "total", "expire"};
    assert FIELDS[..3][..2][..1][..0] == [];
    assert FIELDS[..3] == ["upload", "download", "total"] && FIELDS[..3][..2] == ["upload", "download"]
           && FIELDS[..3][..2][..1] == ["upload"];
    assert Missing(FIELDS[..3][..2][..1], seen) == [];
    assert Missing(FIELDS[..3][..2], seen) == [];
    assert Missing(FIELDS[..3], seen) == [];
  }

  /** For all 64-bit values, parsing the emitted header returns exactly those four numbers with
      nothing missing. */
  lemma RoundTrip(i: Info, lower: map<char, char>)
    requires Int64(i.upload) && Int64(i.download) && Int64(i.total) && Int64(i.expire)
    ensures Parse(Emit(i), lower) == Parsed(i, [])
  {
    hide AddFields, Missing, Join, Print;
    var s := Emit(i);
    EmitIsJoin(i);
    PiecesRead(i, lower);
    SplitOfJoin(Pieces(i), ';');
    PrintIsTrimmed(i.expire);
    assert s[0] == 'u' && s[|s| - 1] == Print(i.expire)[|Print(i.expire)| - 1];
    TrimKeeps(s);
    NothingMissing();
  }

  // ----- the text and its reading, key by key

  /** Decimal digits, most significant first, behind a minus sign if the number is negative. */
  lemma PrintExactly(n: int)
    ensures n < 0 ==> Print(n) == "-" + Print(-n)
    ensures 0 <= n < 10 ==> Print(n) == ["0123456789"[n]]
    ensures n >= 10 ==> Print(n) == Print(n / 10) + Print(n % 10)
  {
    if 0 <= n < 10 { assert "0123456789"[n] == '0' + n as char; }
  }

  /** The header that is served, letter by letter. */
  lemma EmitExactly(i: Info)
    ensures Emit(i) == "upload=" + Print(i.upload) + "; download=" + Print(i.download) + "; total=" + Print(i.total)
                       + "; expire=" + Print(i.expire)
  {
    hide Print;
    var u, d, t, e := Print(i.upload), Print(i.download), Print(i.total), Print(i.expire);
    assert "; download=" == "; " + "download" + "=" && "; total=" == "; " + "total" + "="
           && "; expire=" == "; " + "expire" + "=" && "upload=" == "upload" + "=";
  }

  /** Trimming removes white space at both ends and nothing else. */
  lemma TrimExactly(s: string) returns (i: nat, j: nat)
    ensures i <= j <= |s| && Trim(s) == s[i..j]
    ensures forall k :: 0 <= k < i || j <= k < |s| ==> IsSpace(s[k])
    ensures i < j ==> !IsSpace(s[i]) && !IsSpace(s[j - 1])
  {
    hide IsSpace;
    i := LeftTrimmed(s);
    var k := RightTrimmed(s[i..]);
    j := i + k;
    assert s[i..][..k] == s[i..j];
    assert forall l :: j <= l < |s| ==> s[l] == s[i..][l - i];
  }

  lemma {:induction false} LeftTrimmed(s: string) returns (i: nat)
    ensures i <= |s| && TrimLeft(s) == s[i..] && (i < |s| ==> !IsSpace(s[i]))
    ensures forall k :: 0 <= k < i ==> IsSpace(s[k])
  {
    hide IsSpace;
    i := 0;
    if s != "" && IsSpace(s[0]) {
      var n := LeftTrimmed(s[1..]);
      i := n + 1;
      assert forall k :: 1 <= k < i ==> s[k] == s[1..][k - 1];
    }
  }

  lemma {:induction false} RightTrimmed(s: string) returns (j: nat)
    ensures j <= |s| && TrimRight(s) == s[..j] && (j > 0 ==> !IsSpace(s[j - 1]))
    ensures forall k :: j <= k < |s| ==> IsSpace(s[k])
  {
    hide IsSpace;
    j := |s|;
    if s != "" && IsSpace(s[|s| - 1]) {
      j := RightTrimmed(s[..|s| - 1]);
      assert s[..|s| - 1][..j] == s[..j];
    }
  }

  /** White space below U+0080: tab to carriage return, and space. */
  lemma AsciiSpace(c: char)
    requires c < 128 as char
    ensures IsSpace(c) <==> c as int in {9, 10, 11, 12, 13, 32}
  {
  }

  /** The field sets `key` to `n`: the two stand, in any case and trimmed, around its first `=`. */
  ghost predicate Sets(raw: string, key: string, n: int, lower: map<char, char>) {
    var field := Trim(raw);
    exists eq: nat :: 0 < eq < |field| && SplitsAt(field, eq)
                      && ToLower(Trim(field[..eq]), lower) == key && ParseInt(Trim(field[eq + 1..])) == Some(n)
  }

  ghost predicate SplitsAt(field: string, eq: nat) {
    eq < |field| && field[eq] == '=' && forall k :: 0 <= k < eq ==> field[k] != '='
  }

  /** The field can be read: it is blank, or it sets something. */
  ghost predicate Readable(raw: string, lower: map<char, char>) {
    Trim(raw) == "" || exists key, n :: Sets(raw, key, n, lower)
  }

  ghost predicate Wanted(key: string) { key == "upload" || key == "download" || key == "total" || key == "expire" }

  ghost function Get(info: Info, key: string): (n: int) {
    if key == "upload" then info.upload else if key == "download" then info.download
    else if key == "total" then info.total else info.expire
  }

  /** Field `i` is the last one that sets the key, and it sets it to `n`. */
  ghost predicate LastSets(fields: seq<string>, i: nat, key: string, n: int, lower: map<char, char>) {
    && i < |fields| && Sets(fields[i], key, n, lower)
    && forall j, m :: i < j < |fields| ==> !Sets(fields[j], key, m, lower)
  }

  ghost predicate NeverSet(fields: seq<string>, key: string, lower: map<char, char>) {
    forall j, m :: 0 <= j < |fields| ==> !Sets(fields[j], key, m, lower)
  }

  /** What one field does to the state. */
  lemma FieldExactly(acc: Acc, raw: string, lower: map<char, char>, key: string, n: int)
    requires acc.Acc? && Wanted(key)
    ensures var r := AddField(acc, raw, lower);
            && (r.Acc? <==> Readable(raw, lower))
            && (Sets(raw, key, n, lower) ==> r.Acc? && key in r.seen && Get(r.info, key) == n)
            && ((forall m :: !Sets(raw, key, m, lower)) && r.Acc? ==>
               Get(r.info, key) == Get(acc.info, key) && (key in r.seen <==> key in acc.seen))
  {
    hide Trim, ParseInt, ToLower;
    var field := Trim(raw);
    var eq := IndexOf(field, '=');
    if 0 < eq < |field| {
      var k, v := ToLower(Trim(field[..eq]), lower), ParseInt(Trim(field[eq + 1..]));
      assert SplitsAt(field, eq);
      if v.Some? { assert Sets(raw, k, v.value, lower); }
    }
  }

  lemma SetsOnce(raw: string, key: string, n: int, key': string, m: int, lower: map<char, char>)
    requires Sets(raw, key, n, lower) && Sets(raw, key', m, lower)
    ensures key == key' && n == m
  {
    hide Trim, ParseInt, ToLower;
  }

  /** The loop, key by key: it gets through exactly if every field can be read, and then each wanted key has
      the number of the last field that sets it, or 0 and not seen if there is none. */
  lemma {:induction false} FieldsExactly(fields: seq<string>, lower: map<char, char>, key: string)
    requires Wanted(key)
    ensures AddFields(fields, lower).Acc? <==> forall i :: 0 <= i < |fields| ==> Readable(fields[i], lower)
    ensures AddFields(fields, lower).Acc? ==>
              var r := AddFields(fields, lower);
              if NeverSet(fields, key, lower) then key !in r.seen && Get(r.info, key) == 0
              else key in r.seen && exists i: nat :: LastSets(fields, i, key, Get(r.info, key), lower)
  {
    hide Sets, Readable, AddField, Get;
    if fields == [] {
      ZeroAtFirst(key);
    } else {
      var init, raw := fields[..|fields| - 1], fields[|fields| - 1];
      FieldsExactly(init, lower, key);
      var acc := AddFields(init, lower);
      assert forall i :: 0 <= i < |init| ==> fields[i] == init[i];
      if acc.Acc? {
        if n :| Sets(raw, key, n, lower) {
          FieldExactly(acc, raw, lower, key, n);
          forall m | Sets(raw, key, m, lower) ensures m == n { SetsOnce(raw, key, n, key, m, lower); }
          assert LastSets(fields, |init|, key, n, lower);
        } else {
          FieldExactly(acc, raw, lower, key, 0);
          if i: nat :| LastSets(init, i, key, Get(acc.info, key), lower) {
            assert LastSets(fields, i, key, Get(acc.info, key), lower);
          }
        }
      } else {
        NothingAfterStop(acc, raw, lower);
      }
    }
  }

  lemma NothingAfterStop(acc: Acc, raw: string, lower: map<char, char>)
    requires acc.Stopped?
    ensures AddField(acc, raw, lower) == acc
  {
  }

  /** The whole reading: it succeeds exactly if the text is not blank, every field can be read and one of the
      four keys is set; it lists the keys that are not, in order. */
  lemma ParseExactly(s: string, lower: map<char, char>)
    ensures var fields := Split(Trim(s), ';');
            Parse(s, lower).Parsed? <==>
              && Trim(s) != "" && (forall i :: 0 <= i < |fields| ==> Readable(fields[i], lower))
              && exists key :: Wanted(key) && !NeverSet(fields, key, lower)
    ensures Parse(s, lower).Parsed? ==>
              var fields, r := Split(Trim(s), ';'), Parse(s, lower);
              && (forall key :: Wanted(key) ==>
                   if NeverSet(fields, key, lower) then Get(r.info, key) == 0
                   else exists i: nat :: LastSets(fields, i, key, Get(r.info, key), lower))
              && r.missing == Unset(fields, "upload", lower) + Unset(fields, "download", lower)
                 + Unset(fields, "total", lower) + Unset(fields, "expire", lower)
  {
    hide Sets, Readable, Trim, AddFields, NeverSet, LastSets, Get, Missing, Split;
    var fields := Split(Trim(s), ';');
    forall key | Wanted(key) { FieldsExactly(fields, lower, key); }
    FieldsExactly(fields, lower, "upload");
    var acc := AddFields(fields, lower);
    if acc.Acc? {
      MissingExactly(acc.seen);
      assert Wanted("upload") && Wanted("download") && Wanted("total") && Wanted("expire");
    }
  }

  /** The key, if nothing sets it. */
  ghost function Unset(fields: seq<string>, key: string, lower: map<char, char>): (r: seq<string>) {
    if NeverSet(fields, key, lower) then [key] else []
  }

  function Lacks(seen: set<string>, key: string): (r: seq<string>) { if key in seen then [] else [key] }

  lemma MissingExactly(seen: set<string>)
    ensures Missing(FIELDS, seen)
         == Lacks(seen, "upload") + Lacks(seen, "download") + Lacks(seen, "total") + Lacks(seen, "expire")
  {
    assert FIELDS[..3] == ["upload", "download", "total"] && FIELDS[..3][..2] == ["upload", "download"]
           && FIELDS[..3][..2][..1] == ["upload"] && FIELDS[..3][..2][..1][..0] == [];
    assert Missing(FIELDS[..3][..2][..1], seen) == Lacks(seen, "upload");
    assert Missing(FIELDS[..3][..2], seen) == Lacks(seen, "upload") + Lacks(seen, "download");
    assert Missing(FIELDS[..3], seen) == Lacks(seen, "upload") + Lacks(seen, "download") + Lacks(seen, "total");
  }

  lemma ZeroAtFirst(key: string)
    ensures Get(Info(0, 0, 0, 0), key) == 0
  {
  }

  /** Why the field cannot be read: it has no key in front of an `=`, or what follows is no number. */
  ghost predicate BadBecause(raw: string, why: Problem, lower: map<char, char>) {
    var field := Trim(raw);
    if exists eq: nat :: 0 < eq && SplitsAt(field, eq) then
      exists eq: nat :: 0 < eq && SplitsAt(field, eq)
                        && why == NotAnInteger(ToLower(Trim(field[..eq]), lower), Trim(field[eq + 1..]))
    else why == MalformedPair(field)
  }

  lemma BadField(acc: Acc, raw: string, lower: map<char, char>)
    requires acc.Acc? && !Readable(raw, lower)
    ensures AddField(acc, raw, lower).Stopped? && BadBecause(raw, AddField(acc, raw, lower).why, lower)
  {
    hide Trim, ParseInt, ToLower;
    var field := Trim(raw);
    var eq := IndexOf(field, '=');
    if 0 < eq < |field| {
      assert SplitsAt(field, eq);
      var v := ParseInt(Trim(field[eq + 1..]));
      assert v.Some? ==> Sets(raw, ToLower(Trim(field[..eq]), lower), v.value, lower);
    }
  }

  /** The first field that cannot be read, or that all can and none of the four keys is set. */
  ghost predicate Reports(fields: seq<string>, why: Problem, lower: map<char, char>) {
    || (why == NothingRecognised && forall i :: 0 <= i < |fields| ==> Readable(fields[i], lower))
    || exists i: nat :: i < |fields| && FirstUnreadable(fields, i, lower) && BadBecause(fields[i], why, lower)
  }

  /** What a failed reading reports: the first field that cannot be read, or that nothing was there. */
  lemma ParseProblem(s: string, lower: map<char, char>)
    ensures var fields, r := Split(Trim(s), ';'), Parse(s, lower);
            && (Trim(s) == "" ==> r == Unparseable(EmptyHeader))
            && (Trim(s) != "" && r.Unparseable? ==> Reports(fields, r.why, lower))
  {
    hide Sets, Readable, Trim, AddFields, Missing, Split, BadBecause;
    var fields := Split(Trim(s), ';');
    FieldsExactly(fields, lower, "upload");
    if AddFields(fields, lower).Stopped? {
      var i := StopsAt(fields, lower);
      assert FirstUnreadable(fields, i, lower);
    } else {
      assert forall i :: 0 <= i < |fields| ==> Readable(fields[i], lower);
    }
  }

  ghost predicate FirstUnreadable(fields: seq<string>, i: nat, lower: map<char, char>) {
    i < |fields| && !Readable(fields[i], lower) && forall j :: 0 <= j < i ==> Readable(fields[j], lower)
  }

  lemma {:induction false} StopsAt(fields: seq<string>, lower: map<char, char>) returns (i: nat)
    requires AddFields(fields, lower).Stopped?
    ensures i < |fields| && FirstUnreadable(fields, i, lower)
    ensures BadBecause(fields[i], AddFields(fields, lower).why, lower)
  {
    hide Readable, AddField, BadBecause;
    var init, raw := fields[..|fields| - 1], fields[|fields| - 1];
    var acc := AddFields(init, lower);
    assert forall j :: 0 <= j < |init| ==> fields[j] == init[j];
    FieldsExactly(init, lower, "upload");
    FieldsExactly(fields, lower, "upload");
    if acc.Stopped? {
      i := StopsAt(init, lower);
      NothingAfterStop(acc, raw, lower);
    } else {
      i := |init|;
      BadField(acc, raw, lower);
    }
  }
}
