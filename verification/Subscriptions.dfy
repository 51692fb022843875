/** The subscriptions table: which rows the CSV loader accepts. */
module Subscriptions {
  import opened Text
  import opened Yaml

  datatype Row = Row(name: string, priority: int, enable: bool, refreshSeconds: int, staleOnErrorSeconds: int)

  /** A record after trimming. `parsed` is None when a field other than the name is invalid. */
  datatype Record = Record(name: string, parsed: Option<Row>)

  datatype LoadResult = Loaded(rows: seq<Row>) | Rejected(row: nat)

  /** The `^[a-z]+$` name format. */
  predicate LowerName(s: string) {
    s != "" && forall k :: 0 <= k < |s| ==> 'a' <= s[k] <= 'z'
  }

  ghost predicate ValidTable(rows: seq<Row>) {
    && (forall i :: 0 <= i < |rows| ==> LowerName(rows[i].name))
    && (forall i, j :: 0 <= i < j < |rows| ==> rows[i].name != rows[j].name)
  }

  /** The record at `i` makes the whole load fail. */
  ghost predicate Fatal(recs: seq<Record>, i: nat)
    requires i < |recs|
  {
    && LowerName(recs[i].name)
    && (recs[i].parsed.None? || exists j :: 0 <= j < i && recs[j].name == recs[i].name)
  }

  /** The rows of the records whose name has the required format, in file order. */
  function Accepted(recs: seq<Record>): (rows: seq<Row>)
  {
    if recs == [] then [] else
      var last := recs[|recs| - 1];
      Accepted(recs[..|recs| - 1]) + (if LowerName(last.name) && last.parsed.Some? then [last.parsed.value] else [])
  }

  /** The row loop of `parseSubscriptions`: badly named rows are skipped, anything else wrong
      rejects the file at the first offending row. */
  method ParseRows(recs: seq<Record>) returns (r: LoadResult)
    requires forall i :: 0 <= i < |recs| && recs[i].parsed.Some? ==> recs[i].parsed.value.name == recs[i].name
    ensures r.Loaded? ==> ValidTable(r.rows) && r.rows == Accepted(recs)
    ensures r.Loaded? ==> forall i :: 0 <= i < |recs| ==> !Fatal(recs, i)
    ensures r.Rejected? ==> 1 <= r.row <= |recs| && Fatal(recs, r.row - 1)
    ensures r.Rejected? ==> forall i :: 0 <= i < r.row - 1 ==> !Fatal(recs, i)
  {
    hide LowerName, Accepted, NamesOf;
    var rows: seq<Row> := [];
    assert Accepted(recs[..0]) == [] && NamesOf(recs[..0]) == {} by { NothingRead(recs[..0]); }
    var seen: map<string, nat> := map[];
    for i := 0 to |recs|
      invariant ValidTable(rows) && rows == Accepted(recs[..i]) && seen.Keys == NamesOf(recs[..i])
      invariant forall k :: 0 <= k < |rows| ==> rows[k].name in seen
      invariant forall j :: 0 <= j < i ==> !Fatal(recs, j)
    {
      var rec := recs[i];
      Step(recs, i);
      if !LowerName(rec.name) { continue; }
      if rec.parsed.None? { return Rejected(i + 1); }
      if rec.name in seen { return Rejected(i + 1); }
      seen := seen[rec.name := i + 1];
      rows := rows + [rec.parsed.value];
    }
    assert recs[..|recs|] == recs;
    r := Loaded(rows);
  }

  /** The well-formed names of the records. */
  function NamesOf(recs: seq<Record>): (r: set<string>) {
    if recs == [] then {} else
      var last := recs[|recs| - 1];
      NamesOf(recs[..|recs| - 1]) + (if LowerName(last.name) then {last.name} else {})
  }

  lemma {:induction false} NamesOfHas(recs: seq<Record>, i: nat, n: string)
    requires i <= |recs| && LowerName(n)
    ensures n in NamesOf(recs[..i]) <==> exists j :: 0 <= j < i && recs[j].name == n
  {
    hide LowerName;
    if i > 0 {
      NamesOfHas(recs, i - 1, n);
      assert recs[..i][..i - 1] == recs[..i - 1];
    }
  }

  lemma NothingRead(recs: seq<Record>)
    requires recs == []
    ensures Accepted(recs) == [] && NamesOf(recs) == {}
  {
  }

  /** What the record at `i` adds, and when it is fatal. */
  lemma Step(recs: seq<Record>, i: nat)
    requires i < |recs|
    ensures Accepted(recs[..i + 1])
         == Accepted(recs[..i])
            + (if LowerName(recs[i].name) && recs[i].parsed.Some? then [recs[i].parsed.value] else [])
    ensures NamesOf(recs[..i + 1]) == NamesOf(recs[..i]) + (if LowerName(recs[i].name) then {recs[i].name} else {})
    ensures Fatal(recs, i) <==> LowerName(recs[i].name) && (recs[i].parsed.None? || recs[i].name in NamesOf(recs[..i]))
  {
    hide LowerName;
    assert recs[..i + 1][..i] == recs[..i];
    if LowerName(recs[i].name) { NamesOfHas(recs, i, recs[i].name); }
  }

  // ----- what is accepted

  /** One or more small letters of the alphabet. */
  lemma LowerNameExactly(s: string)
    ensures LowerName(s) <==> s != "" && forall k :: 0 <= k < |s| ==> s[k] in "abcdefghijklmnopqrstuvwxyz"
  {
    forall k | 0 <= k < |s| { SmallLetter(s[k]); }
  }

  lemma SmallLetter(c: char)
    ensures 'a' <= c <= 'z' <==> c in "abcdefghijklmnopqrstuvwxyz"
  {
    var letters := "abcdefghijklmnopqrstuvwxyz";
    if 'a' <= c <= 'z' { assert letters[c as int - 'a' as int] == c; }
  }

  /** The accepted rows are those of the records with a well-formed name, in file order. */
  lemma {:induction false} AcceptedExactly(recs: seq<Record>) returns (at: seq<nat>)
    ensures |at| == |Accepted(recs)|
    ensures forall k :: 0 <= k < |at| ==> at[k] < |recs| && recs[at[k]].parsed == Some(Accepted(recs)[k])
    ensures forall k, l :: 0 <= k < l < |at| ==> at[k] < at[l]
    ensures forall i: nat :: i in at <==> i < |recs| && LowerName(recs[i].name) && recs[i].parsed.Some?
  {
    hide LowerName;
    if recs == [] {
      at := [];
    } else {
      var init, last := recs[..|recs| - 1], recs[|recs| - 1];
      at := AcceptedExactly(init);
      assert forall i :: 0 <= i < |init| ==> recs[i] == init[i];
      if LowerName(last.name) && last.parsed.Some? { at := at + [|init|]; }
    }
  }
}
