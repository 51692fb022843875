/** The daily-spend ledger: a snapshot captured at the first request of a local day, what was used
    since, how it splits into upload and download, and the header served from it. Rates are exact
    reals; a local date is an opaque day number. */
module DailySpend {
  import opened Text
  import opened Sorting
  import opened Yaml
  import opened Userinfo

  datatype LocalDate = Day(n: int) | Garbled(text: string)

  datatype Snapshot = Snapshot(date: LocalDate, takenAt: int, allowance: int, baselines: map<string, int>,
                               ratios: map<string, real>)

  type PerSource = map<string, Info>

  function Counter(ui: Info): (n: int) { ui.upload + ui.download }

  // ----- sums over the sources

  /** The growth since the baseline, clamped at 0; a source without a baseline counts nothing. */
  function Delta(ui: Info, s: Snapshot, name: string): (d: nat) {
    if name in s.baselines && Counter(ui) > s.baselines[name] then Counter(ui) - s.baselines[name] else 0
  }

  function Ratio(s: Snapshot, name: string): (r: real) { if name in s.ratios then s.ratios[name] else 0.0 }

  datatype Totals = Totals(delta: nat, weighted: real)

  function Plus(t: Totals, ui: Info, s: Snapshot, name: string): (r: Totals) {
    var d := Delta(ui, s, name);
    Totals(t.delta + d, t.weighted + d as real * Ratio(s, name))
  }

  predicate Listed(names: seq<string>, per: PerSource) { forall k :: 0 <= k < |names| ==> names[k] in per }

  /** The totals of the listed sources. */
  function Sums(names: seq<string>, per: PerSource, s: Snapshot): (t: Totals)
    requires Listed(names, per)
  {
    if names == [] then Totals(0, 0.0) else
      var n := names[|names| - 1];
      Plus(Sums(names[..|names| - 1], per, s), per[n], s, n)
  }

  function Without(names: seq<string>, i: nat): (r: seq<string>)
    requires i < |names|
  {
    names[..i] + names[i + 1..]
  }

  lemma EitherFirst(t: Totals, a: Info, x: string, b: Info, y: string, s: Snapshot)
    ensures Plus(Plus(t, a, s, x), b, s, y) == Plus(Plus(t, b, s, y), a, s, x)
  {
    hide Delta, Ratio;
  }

  lemma {:induction false} SumsWithout(names: seq<string>, i: nat, per: PerSource, s: Snapshot)
    requires i < |names| && Listed(names, per)
    ensures Listed(Without(names, i), per)
    ensures Sums(names, per, s) == Plus(Sums(Without(names, i), per, s), per[names[i]], s, names[i])
  {
    hide Delta, Ratio, Plus;
    var rest := Without(names, i);
    var last := |names| - 1;
    if i < last {
      SumsWithout(names[..last], i, per, s);
      assert rest[..|rest| - 1] == Without(names[..last], i);
      assert rest[|rest| - 1] == names[last];
      var t, x, y := Sums(Without(names[..last], i), per, s), names[i], names[last];
      EitherFirst(t, per[x], x, per[y], y, s);
    } else {
      assert rest == names[..last];
    }
  }

  /** The totals do not depend on the order in which the map is ranged over. */
  lemma {:induction false} SumsAnyOrder(a: seq<string>, b: seq<string>, per: PerSource, s: Snapshot)
    requires Distinct(a) && Distinct(b) && forall x :: x in a <==> x in b
    requires Listed(a, per) && Listed(b, per)
    ensures Sums(a, per, s) == Sums(b, per, s)
    decreases |a|
  {
    EmptyTogether(a, b);
    if a != [] {
      var x, init := a[|a| - 1], a[..|a| - 1];
      assert x in b;
      var i :| 0 <= i < |b| && b[i] == x;
      var rest := Without(b, i);
      SumsWithout(b, i, per, s);
      RestHasOthers(a, b, i);
      SumsAnyOrder(init, rest, per, s);
    }
  }

  lemma EmptyTogether(a: seq<string>, b: seq<string>)
    requires forall x :: x in a <==> x in b
    ensures a == [] <==> b == []
  {
    assert a != [] ==> a[0] in a;
    assert b != [] ==> b[0] in b;
  }

  lemma RestHasOthers(a: seq<string>, b: seq<string>, i: nat)
    requires Distinct(a) && Distinct(b) && (forall x :: x in a <==> x in b) && a != [] && i < |b| && b[i] == a[|a| - 1]
    ensures var rest := Without(b, i); Distinct(rest) && forall x :: x in a[..|a| - 1] <==> x in rest
  {
    var x, init, rest := a[|a| - 1], a[..|a| - 1], Without(b, i);
    assert a == init + [x] && b == b[..i] + [x] + b[i + 1..];
    forall y ensures y in init <==> y in rest {
      assert y in b <==> y in rest || y == x;
      assert x !in rest && x !in init;
    }
  }

  /** The totals over all sources. */
  ghost function Total(per: PerSource, s: Snapshot): (t: Totals) { Sums(SortedKeys(per.Keys), per, s) }

  lemma SumsSnoc(names: seq<string>, name: string, per: PerSource, s: Snapshot)
    requires Listed(names, per) && name in per
    ensures Listed(names + [name], per) && Sums(names + [name], per, s) == Plus(Sums(names, per, s), per[name], s, name)
  {
    assert (names + [name])[..|names|] == names;
  }

  /** What a source adds to the sums: its growth since the baseline, weighted with the recorded ratio or 0;
      nothing if it has no baseline or has not grown. */
  lemma PlusExactly(t: Totals, ui: Info, s: Snapshot, name: string)
    ensures Plus(t, ui, s, name) ==
            if name in s.baselines && ui.upload + ui.download > s.baselines[name] then
              var g := ui.upload + ui.download - s.baselines[name];
              Totals(t.delta + g, t.weighted + if name in s.ratios then g as real * s.ratios[name] else 0.0)
            else t
  {
    var r := if name in s.ratios then s.ratios[name] else 0.0;
    assert 0 as real * r == 0.0;
  }

  lemma NoSums(per: PerSource, s: Snapshot)
    ensures Listed([], per) && Sums([], per, s) == Totals(0, 0.0)
  {
  }

  lemma ListingTotals(names: seq<string>, per: PerSource, s: Snapshot)
    requires Distinct(names) && forall x :: x in names <==> x in per
    ensures Listed(names, per) && Sums(names, per, s) == Total(per, s)
  {
    var sorted := SortedKeys(per.Keys);
    forall i, j | 0 <= i < j < |sorted| ensures sorted[i] != sorted[j] { LessTotal(sorted[i], sorted[j]); }
    assert forall k :: 0 <= k < |names| ==> names[k] in names;
    assert forall k :: 0 <= k < |sorted| ==> sorted[k] in sorted;
    SumsAnyOrder(names, sorted, per, s);
  }

  /** `ComputeUsedToday` */
  method ComputeUsedToday(per: PerSource, snap: Option<Snapshot>) returns (total: int)
    ensures total == if snap.None? then 0 else Total(per, snap.value).delta
  {
    if snap.None? { return 0; }
    hide SortedKeys, Total, Sums, Listed;
    var s := snap.value;
    total := 0;
    var rest := per.Keys;
    ghost var names: seq<string> := [];
    NoSums(per, s);
    while rest != {}
      invariant rest <= per.Keys && Distinct(names) && (forall x :: x in names <==> x in per && x !in rest)
      invariant Listed(names, per) && total == Sums(names, per, s).delta
      decreases |rest|
    {
      var name :| name in rest;
      SumsSnoc(names, name, per, s);
      names := names + [name];
      rest := rest - {name};
      if name !in s.baselines { continue; }
      var delta := per[name].upload + per[name].download - s.baselines[name];
      if delta > 0 { total := total + delta; }
    }
    ListingTotals(names, per, s);
  }

  /** `math.Round`: to the nearest integer, halves away from zero. */
  function Round(x: real): (n: int) { if x >= 0.0 then (x + 0.5).Floor else -((-x + 0.5).Floor) }

  /** The used bytes times the average upload ratio. */
  function Scaled(used: int, delta: int, weighted: real): (x: real)
    requires delta != 0
  {
    used as real * (weighted / delta as real)
  }

  /** What `SplitUsedToday` makes of its sums. */
  function Shares(used: int, t: Totals): (r: (int, int)) {
    if used <= 0 then (0, 0)
    else if t.delta == 0 then (0, used)
    else
      var up := Round(Scaled(used, t.delta, t.weighted));
      var up := if up < 0 then 0 else if up > used then used else up;
      (up, used - up)
  }

  /** The loop of `SplitUsedToday`. */
  method SumWeighted(per: PerSource, s: Snapshot) returns (totalDelta: nat, weightedSum: real)
    ensures Totals(totalDelta, weightedSum) == Total(per, s)
  {
    hide SortedKeys, Total, Sums, Listed;
    weightedSum, totalDelta := 0.0, 0;
    var rest := per.Keys;
    ghost var names: seq<string> := [];
    NoSums(per, s);
    while rest != {}
      invariant rest <= per.Keys && Distinct(names) && (forall x :: x in names <==> x in per && x !in rest)
      invariant Listed(names, per) && Totals(totalDelta, weightedSum) == Sums(names, per, s)
      decreases |rest|
    {
      var name :| name in rest;
      SumsSnoc(names, name, per, s);
      names := names + [name];
      rest := rest - {name};
      if name !in s.baselines { continue; }
      var delta := per[name].upload + per[name].download - s.baselines[name];
      if delta <= 0 { continue; }
      var ratio := if name in s.ratios then s.ratios[name] else 0.0;
      weightedSum := weightedSum + delta as real * ratio;
      totalDelta := totalDelta + delta;
    }
    ListingTotals(names, per, s);
  }

  /** `SplitUsedToday` */
  method SplitUsedToday(used: int, per: PerSource, snap: Option<Snapshot>) returns (upload: int, download: int)
    ensures (upload, download) == if snap.None? then (0, 0) else Shares(used, Total(per, snap.value))
  {
    hide Total;
    if used <= 0 || snap.None? { return 0, 0; }
    var totalDelta, weightedSum := SumWeighted(per, snap.value);
    if totalDelta == 0 { return 0, used; }
    upload := Round(Scaled(used, totalDelta, weightedSum));
    if upload < 0 { upload := 0; }
    if upload > used { upload := used; }
    download := used - upload;
  }

  // ----- the split

  ghost predicate RatiosOk(s: Snapshot) { forall n :: n in s.ratios ==> 0.0 <= s.ratios[n] <= 1.0 }

  lemma Weighted(d: nat, r: real)
    requires 0.0 <= r <= 1.0
    ensures 0.0 <= d as real * r <= d as real
  {
  }

  /** The weighted sum lies between nothing and everything. */
  ghost predicate Shared(t: Totals) { 0.0 <= t.weighted <= t.delta as real }

  lemma PlusShared(t: Totals, d: nat, r: real)
    requires Shared(t) && 0.0 <= r <= 1.0
    ensures Shared(Totals(t.delta + d, t.weighted + d as real * r))
  {
    Weighted(d, r);
    var p := d as real * r;
    assert (t.delta + d) as real == t.delta as real + d as real;
  }

  lemma {:induction false} SumsShared(names: seq<string>, per: PerSource, s: Snapshot)
    requires Listed(names, per) && RatiosOk(s)
    ensures Shared(Sums(names, per, s))
  {
    hide Shared;
    if names != [] {
      var n := names[|names| - 1];
      SumsShared(names[..|names| - 1], per, s);
      PlusShared(Sums(names[..|names| - 1], per, s), Delta(per[n], s, n), Ratio(s, n));
    } else {
      NothingShared();
    }
  }

  lemma NothingShared()
    ensures Shared(Totals(0, 0.0))
  {
  }

  lemma RoundNearest(x: real, n: nat)
    requires 0.0 <= x <= n as real
    ensures 0 <= Round(x) <= n && -0.5 <= Round(x) as real - x <= 0.5
  {
  }

  lemma Cancel(d: nat, w: real)
    requires d > 0
    ensures Scaled(d, d, w) == w
  {
  }

  lemma SplitShared(t: Totals)
    requires Shared(t) && t.delta > 0
    ensures Shares(t.delta, t) == (Round(t.weighted), t.delta - Round(t.weighted))
    ensures 0 <= Round(t.weighted) <= t.delta && -0.5 <= Round(t.weighted) as real - t.weighted <= 0.5
  {
    hide Round, Scaled;
    Cancel(t.delta, t.weighted);
    RoundNearest(t.weighted, t.delta);
  }

  lemma SplitSums(used: nat, t: Totals)
    ensures var r := Shares(used, t); r.0 >= 0 && r.1 >= 0 && r.0 + r.1 == used
  {
    hide Round;
  }

  /** Splitting what was used today conserves it; with ratios in [0, 1] the upload share is the
      weighted sum rounded, within half a byte, and neither clamp changes it. */
  lemma SplitConserves(per: PerSource, s: Snapshot)
    ensures var t := Total(per, s);
            var r := Shares(t.delta, t);
            && r.0 >= 0 && r.1 >= 0 && r.0 + r.1 == t.delta
            && (RatiosOk(s) && t.delta > 0 ==> r.0 == Round(t.weighted) && -0.5 <= r.0 as real - t.weighted <= 0.5)
            && (RatiosOk(s) && t.delta == 0 ==> r.0 == 0 && t.weighted == 0.0)
  {
    hide Round, Shares, Sums, SortedKeys, RatiosOk;
    var names, t := SortedKeys(per.Keys), Total(per, s);
    assert Listed(names, per) by { assert forall k :: 0 <= k < |names| ==> names[k] in names; }
    SplitSums(t.delta, t);
    if RatiosOk(s) {
      SumsShared(names, per, s);
      if t.delta > 0 { SplitShared(t); }
    }
  }

  /** Exactly what the split makes of its sums: nothing of nothing; all download if nothing has grown; and
      otherwise the used bytes times the average ratio, rounded and kept between nothing and everything. */
  lemma SharesExactly(used: int, t: Totals, n: int)
    ensures used <= 0 ==> Shares(used, t) == (0, 0)
    ensures used > 0 && t.delta == 0 ==> Shares(used, t) == (0, used)
    ensures used > 0 && t.delta > 0 && Rounded(used as real * (t.weighted / t.delta as real), n) ==>
              Shares(used, t) == if n < 0 then (0, used) else if n > used then (used, 0) else (n, used - n)
  {
    hide Round, Rounded;
    if used > 0 && t.delta > 0 {
      var x := Scaled(used, t.delta, t.weighted);
      assert x == used as real * (t.weighted / t.delta as real);
      RoundExactly(x, n);
      assert Rounded(x, n) ==> Round(x) == n;
    }
  }

  // ----- the snapshot

  /** `IsRolloverNeeded` */
  predicate RolloverNeeded(s: Option<Snapshot>, today: int) { s.None? || s.value.date != Day(today) }

  function UploadRatio(ui: Info): (r: real) { if Counter(ui) > 0 then ui.upload as real / Counter(ui) as real else 0.0 }

  /** What `CaptureSnapshot` records. */
  function Captured(per: PerSource, allowance: int, now: int, today: int): (s: Snapshot) {
    Snapshot(Day(today), now, allowance, map n | n in per :: Counter(per[n]), map n | n in per :: UploadRatio(per[n]))
  }

  /** What a snapshot holds of every source: its counter, and the share of upload in it; 0 if the counter is
      not positive. */
  ghost predicate Recorded(per: PerSource, s: Snapshot) {
    && s.baselines.Keys == per.Keys && s.ratios.Keys == per.Keys
    && forall n :: n in per ==>
         var up, all := per[n].upload, per[n].upload + per[n].download;
         && s.baselines[n] == all
         && (if all > 0 then s.ratios[n] * all as real == up as real else s.ratios[n] == 0.0)
  }

  lemma CapturedIsRecorded(per: PerSource, allowance: int, now: int, today: int)
    ensures Recorded(per, Captured(per, allowance, now, today))
  {
    var s := Captured(per, allowance, now, today);
    forall n | n in per && Counter(per[n]) > 0
      ensures s.ratios[n] * Counter(per[n]) as real == per[n].upload as real
    {
      Divided(per[n].upload as real, Counter(per[n]) as real);
    }
  }

  lemma Divided(a: real, b: real)
    requires b != 0.0
    ensures a / b * b == a
  {
  }

  /** `CaptureSnapshot` */
  method CaptureSnapshot(per: PerSource, allowance: int, now: int, today: int) returns (s: Snapshot)
    ensures s == Captured(per, allowance, now, today)
    ensures Recorded(per, s) && s.date == Day(today) && s.takenAt == now && s.allowance == allowance
  {
    hide Recorded;
    var baselines: map<string, int>, ratios: map<string, real> := map[], map[];
    var rest := per.Keys;
    while rest != {}
      invariant rest <= per.Keys
      invariant baselines == map n | n in per && n !in rest :: Counter(per[n])
      invariant ratios == map n | n in per && n !in rest :: UploadRatio(per[n])
      decreases |rest|
    {
      var name :| name in rest;
      var ui := per[name];
      baselines := baselines[name := ui.upload + ui.download];
      var denom := ui.upload + ui.download;
      ratios := ratios[name := if denom > 0 then ui.upload as real / denom as real else 0.0];
      rest := rest - {name};
    }
    s := Snapshot(Day(today), now, allowance, baselines, ratios);
    CapturedIsRecorded(per, allowance, now, today);
  }

  /** `validateSnapshot` */
  predicate ValidSnapshot(s: Snapshot) {
    s.date.Day? && s.allowance >= 0 && forall n :: n in s.ratios ==> 0.0 <= s.ratios[n] <= 1.0
  }

  ghost predicate NonNegative(per: PerSource) { forall n :: n in per ==> per[n].upload >= 0 && per[n].download >= 0 }

  lemma RatioInRange(ui: Info)
    requires ui.upload >= 0 && ui.download >= 0
    ensures 0.0 <= UploadRatio(ui) <= 1.0
  {
    if Counter(ui) > 0 { Fraction(ui.upload, Counter(ui)); }
  }

  lemma Fraction(a: nat, b: nat)
    requires a <= b && b > 0
    ensures 0.0 <= a as real / b as real <= 1.0
  {
  }

  /** A snapshot captured from non-negative counters passes validation when it is loaded again. */
  lemma CapturedIsValid(per: PerSource, allowance: nat, now: int, today: int)
    requires NonNegative(per)
    ensures ValidSnapshot(Captured(per, allowance, now, today))
  {
    forall n | n in per ensures 0.0 <= UploadRatio(per[n]) <= 1.0 { RatioInRange(per[n]); }
  }

  // ----- the split, from the counters themselves

  /** What a source has used since `base`, at least nothing. */
  function Growth(base: Info, ui: Info): (g: nat) {
    var g := ui.upload + ui.download - (base.upload + base.download);
    if g > 0 then g else 0
  }

  /** `used` times the fraction `part` of `all`. */
  function ShareOf(used: int, part: int, all: int): (x: real)
    requires all != 0
  {
    used as real * part as real / all as real
  }

  /** The part of it that counts as upload: in the proportion the counters had at `base`. */
  function GrowthUp(base: Info, ui: Info): (x: real) {
    var all := base.upload + base.download;
    if all > 0 then ShareOf(Growth(base, ui), base.upload, all) else 0.0
  }

  /** Both summed over the listed sources; one without counters at `base` counts nothing. */
  function UsedSince(names: seq<string>, per: PerSource, base: PerSource): (t: Totals)
    requires Listed(names, per)
  {
    if names == [] then Totals(0, 0.0) else
      var n, t := names[|names| - 1], UsedSince(names[..|names| - 1], per, base);
      if n in base then Totals(t.delta + Growth(base[n], per[n]), t.weighted + GrowthUp(base[n], per[n])) else t
  }

  lemma ProductOfShare(d: real, r: real, up: real, all: real)
    requires all != 0.0 && r * all == up
    ensures d * r == d * up / all
  {
    assert d * up == d * r * all;
  }

  lemma OneSource(s: Snapshot, base: PerSource, n: string, ui: Info)
    requires Recorded(base, s)
    ensures Delta(ui, s, n) == if n in base then Growth(base[n], ui) else 0
    ensures n in base ==> Delta(ui, s, n) as real * Ratio(s, n) == GrowthUp(base[n], ui)
  {
    if n in base {
      var all := base[n].upload + base[n].download;
      if all > 0 { ProductOfShare(Growth(base[n], ui) as real, s.ratios[n], base[n].upload as real, all as real); }
    }
  }

  /** The totals of a captured snapshot, from the counters it was captured from. */
  lemma {:induction false} SumsSinceCapture(names: seq<string>, per: PerSource, base: PerSource, s: Snapshot)
    requires Listed(names, per) && Recorded(base, s)
    ensures Sums(names, per, s) == UsedSince(names, per, base)
  {
    hide Delta, Ratio, Growth, GrowthUp, Recorded;
    if names != [] {
      var n := names[|names| - 1];
      SumsSinceCapture(names[..|names| - 1], per, base, s);
      OneSource(s, base, n, per[n]);
      if n !in base { NothingSince(s, base, n, per[n]); }
    }
  }

  lemma NothingSince(s: Snapshot, base: PerSource, n: string, ui: Info)
    requires Recorded(base, s) && n !in base
    ensures Delta(ui, s, n) == 0 && 0 as real * Ratio(s, n) == 0.0
  {
  }

  /** `n` is `x` rounded, halves away from zero. */
  ghost predicate Rounded(x: real, n: int) {
    if x >= 0.0 then n as real - 0.5 <= x < n as real + 0.5 else n as real - 0.5 < x <= n as real + 0.5
  }

  lemma RoundExactly(x: real, n: int)
    ensures Round(x) == n <==> Rounded(x, n)
  {
  }
}
