/** Country inference from proxy display names and the country-to-continent table. The tables'
    contents are parameters; their validity is what the program checks at start-up. */
module RegionTable {
  import opened Text
  import opened Yaml

  datatype Lang = Zh | En

  datatype RegionEntry = RegionEntry(indicator: string, code: string, lang: Lang)

  datatype ContinentEntry = ContinentEntry(country: string, continent: string)

  /** `lower` is the library's lower-casing of the runes beyond ASCII. */
  datatype Tables = Tables(regions: seq<RegionEntry>, continents: seq<ContinentEntry>, lower: map<char, char>)

  predicate TwoLetters(s: string) {
    |s| == 2 && 'A' <= s[0] <= 'Z' && 'A' <= s[1] <= 'Z'
  }

  ghost predicate ValidTables(t: Tables) {
    && (forall i :: 0 <= i < |t.regions| ==> TwoLetters(t.regions[i].code))
    && (forall i :: 0 <= i < |t.continents| ==>
          TwoLetters(t.continents[i].country) && TwoLetters(t.continents[i].continent))
    && (forall i, j :: 0 <= i < j < |t.continents| ==> t.continents[i].country != t.continents[j].country)
  }

  /** A regional-indicator symbol, U+1F1E6 to U+1F1FF. */
  predicate RegionalIndicator(c: char) { 0x1F1E6 <= c as int <= 0x1F1FF }

  function Letter(c: char): (r: char)
    requires RegionalIndicator(c)
    ensures 'A' <= r <= 'Z'
  {
    (c as int - 0x1F1E6 + 'A' as int) as char
  }

  predicate PairAt(s: string, i: nat) {
    i + 1 < |s| && RegionalIndicator(s[i]) && RegionalIndicator(s[i + 1])
  }

  /** `decodeRegionalIndicatorPair`: the letters of the first adjacent pair of regional indicators. */
  method DecodeIndicators(s: string) returns (code: Option<string>, ghost at: nat)
    ensures code == FlagCode(s, 0)
    ensures code.None? ==> forall i: nat :: i < |s| ==> !PairAt(s, i)
    ensures code.Some? ==> PairAt(s, at) && code.value == [Letter(s[at]), Letter(s[at + 1])]
    ensures forall k: nat :: k < at ==> !PairAt(s, k)
  {
    var i := 0;
    while i < |s|
      invariant i <= |s| && FlagCode(s, 0) == FlagCode(s, i)
      invariant forall k: nat :: k < i ==> !PairAt(s, k)
    {
      if RegionalIndicator(s[i]) && i + 1 < |s| && RegionalIndicator(s[i + 1]) {
        return Some([Letter(s[i]), Letter(s[i + 1])]), i;
      }
      i := i + 1;
    }
    return None, i;
  }

  function FlagCode(s: string, i: nat): (code: Option<string>)
    requires i <= |s|
    ensures code.Some? ==> TwoLetters(code.value)
    decreases |s| - i
  {
    if i == |s| then None
    else if PairAt(s, i) then Some([Letter(s[i]), Letter(s[i + 1])])
    else FlagCode(s, i + 1)
  }

  /** `strings.Contains` */
  predicate Contains(s: string, sub: string) {
    exists k :: 0 <= k <= |s| && OccursAt(s, sub, k)
  }

  predicate OccursAt(s: string, sub: string, k: nat)
    requires k <= |s|
  {
    sub <= s[k..]
  }

  /** The code of the first entry of the language whose indicator occurs in the text. */
  function ScanEntries(entries: seq<RegionEntry>, lang: Lang, text: string, i: nat): (code: Option<string>)
    requires i <= |entries|
    decreases |entries| - i
  {
    if i == |entries| then None
    else if entries[i].lang == lang && Contains(text, entries[i].indicator) then Some(entries[i].code)
    else ScanEntries(entries, lang, text, i + 1)
  }

  /** `inferCountry`: flag first, then Chinese, then English indicators. */
  function InferCountry(name: string, t: Tables): (code: Option<string>) {
    var flag, zh := FlagCode(name, 0), ScanEntries(t.regions, Zh, name, 0);
    if flag.Some? then flag
    else if zh.Some? then zh
    else ScanEntries(t.regions, En, ToLower(name, t.lower), 0)
  }

  function ScanContinents(entries: seq<ContinentEntry>, cc: string, i: nat): (r: Option<string>)
    requires i <= |entries|
    decreases |entries| - i
  {
    if i == |entries| then None
    else if entries[i].country == cc then Some(entries[i].continent)
    else ScanContinents(entries, cc, i + 1)
  }

  /** `continentOf` */
  function ContinentOf(cc: string, t: Tables): (r: Option<string>) { ScanContinents(t.continents, cc, 0) }

  lemma {:induction false} ScanEntriesCodes(entries: seq<RegionEntry>, lang: Lang, text: string, i: nat)
    requires i <= |entries| && forall k :: 0 <= k < |entries| ==> TwoLetters(entries[k].code)
    ensures ScanEntries(entries, lang, text, i).Some? ==> TwoLetters(ScanEntries(entries, lang, text, i).value)
    decreases |entries| - i
  {
    if i < |entries| { ScanEntriesCodes(entries, lang, text, i + 1); }
  }

  /** Whatever the name, an inferred country is a two-letter code. */
  lemma InferredCodes(name: string, t: Tables)
    requires ValidTables(t)
    ensures InferCountry(name, t).Some? ==> TwoLetters(InferCountry(name, t).value)
  {
    ScanEntriesCodes(t.regions, Zh, name, 0);
    ScanEntriesCodes(t.regions, En, ToLower(name, t.lower), 0);
  }

  /** With unique countries the table is a function: every listed pair is the one found. */
  lemma {:induction false} ContinentLookup(t: Tables, i: nat, k: nat)
    requires ValidTables(t) && i <= k < |t.continents|
    ensures ScanContinents(t.continents, t.continents[k].country, i) == Some(t.continents[k].continent)
    decreases k - i
  {
    if i < k { ContinentLookup(t, i + 1, k); }
  }

  /** And no other: a country is on a continent exactly when the table lists the pair. */
  lemma ContinentExactly(t: Tables, cc: string, cont: string)
    requires ValidTables(t)
    ensures ContinentOf(cc, t) == Some(cont) <==>
            exists k :: 0 <= k < |t.continents| && t.continents[k] == ContinentEntry(cc, cont)
  {
    ScannedContinent(t.continents, cc, 0);
    if k :| 0 <= k < |t.continents| && t.continents[k] == ContinentEntry(cc, cont) { ContinentLookup(t, 0, k); }
  }

  lemma {:induction false} ScannedContinent(entries: seq<ContinentEntry>, cc: string, i: nat)
    requires i <= |entries|
    ensures var r := ScanContinents(entries, cc, i);
            r.Some? ==> exists k :: 0 <= k < |entries| && entries[k] == ContinentEntry(cc, r.value)
    decreases |entries| - i
  {
    if i < |entries| && entries[i].country != cc { ScannedContinent(entries, cc, i + 1); }
  }

  // ----- the precedence of the three kinds of indicators

  /** Two adjacent regional indicators spell the code: U+1F1E6 stands for A, U+1F1E7 for B, and so on. */
  ghost predicate FlagAt(s: string, i: nat, code: string) {
    i + 1 < |s| && exists a: nat, b: nat :: a < 26 && b < 26 && SymbolFor(s[i], a) && SymbolFor(s[i + 1], b)
                                            && code == [LETTERS[a], LETTERS[b]]
  }

  const LETTERS := "ABCDEFGHIJKLMNOPQRSTUVWXYZ"

  ghost predicate SymbolFor(c: char, a: nat) { c as int == 0x1F1E6 + a }

  lemma SymbolLetter(c: char)
    ensures RegionalIndicator(c) <==> exists a: nat :: a < 26 && SymbolFor(c, a)
    ensures RegionalIndicator(c) ==> c as int - 0x1F1E6 < 26 && Letter(c) == LETTERS[c as int - 0x1F1E6]
  {
    if RegionalIndicator(c) {
      var a := c as int - 0x1F1E6;
      assert SymbolFor(c, a);
      assert LETTERS[a] == ('A' as int + a) as char;
    }
  }

  lemma PairIsFlag(s: string, i: nat)
    ensures PairAt(s, i) ==> FlagAt(s, i, [Letter(s[i]), Letter(s[i + 1])])
    ensures !PairAt(s, i) ==> forall code :: !FlagAt(s, i, code)
  {
    if i + 1 < |s| {
      SymbolLetter(s[i]);
      SymbolLetter(s[i + 1]);
      if PairAt(s, i) {
        var a, b := s[i] as int - 0x1F1E6, s[i + 1] as int - 0x1F1E6;
        assert SymbolFor(s[i], a) && SymbolFor(s[i + 1], b);
        assert [Letter(s[i]), Letter(s[i + 1])] == [LETTERS[a], LETTERS[b]];
      }
    }
  }

  /** The first flag of the text. */
  ghost predicate FirstFlag(s: string, i: nat, code: string) {
    FlagAt(s, i, code) && forall j: nat, c :: j < i ==> !FlagAt(s, j, c)
  }

  lemma {:induction false} FlagFrom(s: string, i: nat)
    requires i <= |s| && forall j: nat, c :: j < i ==> !FlagAt(s, j, c)
    ensures FlagCode(s, i).None? ==> forall j: nat, c :: !FlagAt(s, j, c)
    ensures FlagCode(s, i).Some? ==> exists j: nat :: FirstFlag(s, j, FlagCode(s, i).value)
    decreases |s| - i
  {
    hide FlagAt, Letter, RegionalIndicator;
    if i < |s| {
      PairIsFlag(s, i);
      if PairAt(s, i) { assert FirstFlag(s, i, FlagCode(s, i).value); } else { FlagFrom(s, i + 1); }
    } else {
      forall j: nat, c ensures !FlagAt(s, j, c) { if j >= i { NoFlagBehind(s, j, c); } }
    }
  }

  lemma NoFlagBehind(s: string, j: nat, c: string)
    requires j >= |s|
    ensures !FlagAt(s, j, c)
  {
  }

  /** Entry `k` is of the language and its indicator stands somewhere in the text. */
  ghost predicate Indicates(entries: seq<RegionEntry>, lang: Lang, text: string, k: nat) {
    k < |entries| && entries[k].lang == lang && exists p: nat :: StandsAt(text, entries[k].indicator, p)
  }

  ghost predicate StandsAt(text: string, part: string, p: nat) { p + |part| <= |text| && text[p..p + |part|] == part }

  /** Of the entries that do, the first. */
  ghost predicate FirstIndicates(entries: seq<RegionEntry>, lang: Lang, text: string, k: nat) {
    Indicates(entries, lang, text, k) && forall j: nat :: j < k ==> !Indicates(entries, lang, text, j)
  }

  lemma ContainsExactly(text: string, part: string)
    ensures Contains(text, part) <==> exists p: nat :: StandsAt(text, part, p)
  {
    if p :| 0 <= p <= |text| && OccursAt(text, part, p) {
      assert text[p..p + |part|] == text[p..][..|part|];
      assert StandsAt(text, part, p);
    }
    if p: nat :| StandsAt(text, part, p) {
      assert text[p..][..|part|] == text[p..p + |part|];
      assert OccursAt(text, part, p);
    }
  }

  lemma {:induction false} ScanFrom(entries: seq<RegionEntry>, lang: Lang, text: string, i: nat)
    requires i <= |entries| && forall j: nat :: j < i ==> !Indicates(entries, lang, text, j)
    ensures ScanEntries(entries, lang, text, i).None? ==> forall j: nat :: !Indicates(entries, lang, text, j)
    ensures ScanEntries(entries, lang, text, i).Some? ==>
              exists k: nat :: FirstIndicates(entries, lang, text, k)
                               && ScanEntries(entries, lang, text, i) == Some(entries[k].code)
    decreases |entries| - i
  {
    hide StandsAt, Contains;
    if i < |entries| {
      ContainsExactly(text, entries[i].indicator);
      if Indicates(entries, lang, text, i) {
        assert FirstIndicates(entries, lang, text, i);
      } else {
        ScanFrom(entries, lang, text, i + 1);
      }
    }
  }

  /** Some entry of the language indicates the text: the first one gives the code. */
  ghost predicate CodedBy(entries: seq<RegionEntry>, lang: Lang, text: string, code: string) {
    exists k: nat :: FirstIndicates(entries, lang, text, k) && entries[k].code == code
  }

  /** Exactly how a name is classified: by its first flag; without a flag, by the first Chinese indicator in
      it; without one, by the first English indicator in its lower-case form; and not at all otherwise. */
  lemma InferExactly(name: string, t: Tables)
    ensures var r, low := InferCountry(name, t), ToLower(name, t.lower);
            if exists i: nat, c :: FlagAt(name, i, c) then r.Some? && exists i: nat :: FirstFlag(name, i, r.value)
            else if exists k: nat :: Indicates(t.regions, Zh, name, k) then
              r.Some? && CodedBy(t.regions, Zh, name, r.value)
            else if exists k: nat :: Indicates(t.regions, En, low, k) then
              r.Some? && CodedBy(t.regions, En, low, r.value)
            else r.None?
  {
    hide FlagAt, Indicates, FlagCode, ScanEntries, ToLower;
    FlagFrom(name, 0);
    ScanFrom(t.regions, Zh, name, 0);
    ScanFrom(t.regions, En, ToLower(name, t.lower), 0);
  }

  lemma {:induction false} ContinentCodes(entries: seq<ContinentEntry>, cc: string, i: nat)
    requires i <= |entries| && forall k :: 0 <= k < |entries| ==> TwoLetters(entries[k].continent)
    ensures ScanContinents(entries, cc, i).Some? ==> TwoLetters(ScanContinents(entries, cc, i).value)
    decreases |entries| - i
  {
    if i < |entries| { ContinentCodes(entries, cc, i + 1); }
  }
}
