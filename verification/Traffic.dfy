/** The daily allowance, the served traffic header, and the ledger over whole runs of requests. */
module Traffic {
  import opened Text
  import opened Sorting
  import opened Yaml
  import opened Userinfo
  import opened DailySpend

  // ----- the allowance

  const SECONDS_PER_DAY := 86400

  function Remaining(ui: Info): (n: nat) {
    var r := ui.total - ui.upload - ui.download;
    if r < 0 then 0 else r
  }

  /** Days until the plan expires, rounded up, at least one. */
  function DaysLeft(ui: Info, now: int): (d: nat)
    ensures d >= 1
  {
    var d := (ui.expire - now + SECONDS_PER_DAY - 1) / SECONDS_PER_DAY;
    if d < 1 then 1 else d
  }

  function Rate(ui: Info, now: int): (r: nat) { Remaining(ui) / DaysLeft(ui, now) }

  datatype Allowance = Allowance(perDay: nat, noExpiry: nat, expired: seq<string>)

  function AddSource(a: Allowance, name: string, ui: Info, now: int): (r: Allowance) {
    if ui.expire == 0 then a.(noExpiry := a.noExpiry + Remaining(ui))
    else if ui.expire <= now then a.(expired := a.expired + [name])
    else a.(perDay := a.perDay + Rate(ui, now))
  }

  function AllowanceOf(names: seq<string>, per: PerSource, now: int): (r: Allowance)
    requires Listed(names, per)
  {
    if names == [] then Allowance(0, 0, []) else
      var n := names[|names| - 1];
      AddSource(AllowanceOf(names[..|names| - 1], per, now), n, per[n], now)
  }

  lemma KeysListed(per: PerSource)
    ensures Listed(SortedKeys(per.Keys), per)
  {
    var names := SortedKeys(per.Keys);
    assert forall k :: 0 <= k < |names| ==> names[k] in names;
  }

  ghost function DailyAllowance(per: PerSource, now: int): (r: Allowance) {
    KeysListed(per);
    AllowanceOf(SortedKeys(per.Keys), per, now)
  }

  /** A source's rate times its remaining days never exceeds its remaining bytes, and no larger
      rate would do; the days cover the time left and one day less would not. */
  lemma RateFitsPlan(ui: Info, now: int)
    ensures Rate(ui, now) * DaysLeft(ui, now) <= Remaining(ui) < (Rate(ui, now) + 1) * DaysLeft(ui, now)
    ensures ui.expire > now ==>
            (DaysLeft(ui, now) - 1) * 86400 < ui.expire - now <= DaysLeft(ui, now) * 86400
  {
    DivideLaw(Remaining(ui), DaysLeft(ui, now));
  }

  /** What the plan still allows, never less than nothing. */
  lemma RemainingExactly(ui: Info)
    ensures Remaining(ui) == if ui.upload + ui.download < ui.total then ui.total - (ui.upload + ui.download) else 0
  {
  }

  /** The rates of the listed plans that have an expiry ahead of them. */
  function RatesOf(names: seq<string>, per: PerSource, now: int): (r: nat)
    requires Listed(names, per)
  {
    if names == [] then 0 else
      var ui := per[names[|names| - 1]];
      RatesOf(names[..|names| - 1], per, now) + (if ui.expire != 0 && ui.expire > now then Rate(ui, now) else 0)
  }

  /** What the listed plans without an expiry still allow. */
  function OpenOf(names: seq<string>, per: PerSource): (r: nat)
    requires Listed(names, per)
  {
    if names == [] then 0 else
      var ui := per[names[|names| - 1]];
      OpenOf(names[..|names| - 1], per) + (if ui.expire == 0 then Remaining(ui) else 0)
  }

  lemma {:induction false} AllowanceParts(names: seq<string>, per: PerSource, now: int)
    requires Listed(names, per)
    ensures var a := AllowanceOf(names, per, now);
            && a.perDay == RatesOf(names, per, now) && a.noExpiry == OpenOf(names, per)
            && forall x :: x in a.expired <==> x in names && per[x].expire != 0 && per[x].expire <= now
  {
    hide Rate, Remaining;
    if names != [] {
      AllowanceParts(names[..|names| - 1], per, now);
      assert names == names[..|names| - 1] + [names[|names| - 1]];
    }
  }

  /** Every source counts in one way: an expired plan is listed and adds nothing, one without expiry adds
      all that is left, any other adds its rate. */
  lemma AllowanceExactly(per: PerSource, now: int)
    ensures var a, names := DailyAllowance(per, now), SortedKeys(per.Keys);
            && Listed(names, per) && a.perDay == RatesOf(names, per, now) && a.noExpiry == OpenOf(names, per)
            && Ascending(a.expired)
            && forall x :: x in a.expired <==> x in per && per[x].expire != 0 && per[x].expire <= now
  {
    hide SortedKeys;
    var names := SortedKeys(per.Keys);
    KeysListed(per);
    AllowanceParts(names, per, now);
    ExpiredAscending(names, per, now);
  }

  lemma DivideLaw(a: nat, b: nat)
    requires b > 0
    ensures a / b * b <= a < (a / b + 1) * b
  {
  }

  lemma {:induction false} ExpiredAscending(names: seq<string>, per: PerSource, now: int)
    requires Ascending(names) && Listed(names, per)
    ensures Ascending(AllowanceOf(names, per, now).expired)
    ensures forall x :: x in AllowanceOf(names, per, now).expired ==> x in names
  {
    if names != [] {
      var init, n := names[..|names| - 1], names[|names| - 1];
      ExpiredAscending(init, per, now);
      var e := AllowanceOf(init, per, now).expired;
      forall i | 0 <= i < |e| ensures Less(e[i], n) {
        assert e[i] in e;
        var k :| 0 <= k < |init| && init[k] == e[i];
        assert Less(names[k], names[|names| - 1]);
      }
    }
  }

  lemma SortAscending(s: seq<string>)
    requires Ascending(s)
    ensures SortStrings(s) == s
  {
    forall i, j | 0 <= i < j < |s| ensures s[i] != s[j] { LessTotal(s[i], s[j]); }
    SortStringsAscending(s);
    AscendingUnique(SortStrings(s), s);
  }

  method AddOne(a: Allowance, name: string, ui: Info, now: int) returns (r: Allowance)
    ensures r == AddSource(a, name, ui, now)
  {
    hide DaysLeft;
    r := a;
    var remaining := ui.total - ui.upload - ui.download;
    if remaining < 0 { remaining := 0; }
    if ui.expire == 0 {
      r := r.(noExpiry := r.noExpiry + remaining);
    } else if ui.expire <= now {
      r := r.(expired := r.expired + [name]);
    } else {
      r := r.(perDay := r.perDay + remaining / DaysLeft(ui, now));
    }
  }

  /** `ComputeDailyAllowance` */
  method ComputeDailyAllowance(per: PerSource, now: int) returns (r: Allowance)
    ensures r == DailyAllowance(per, now)
  {
    hide SortedKeys, SortStrings, AddSource;
    var names := SortKeys(per.Keys);
    KeysListed(per);
    r := Allowance(0, 0, []);
    for i := 0 to |names|
      invariant r == AllowanceOf(names[..i], per, now)
    {
      assert names[..i + 1][..i] == names[..i];
      r := AddOne(r, names[i], per[names[i]], now);
    }
    assert names[..|names|] == names;
    ExpiredAscending(names, per, now);
    SortAscending(r.expired);
    r := r.(expired := SortStrings(r.expired));
  }

  // ----- the header

  datatype Header = Header(allowance: int, expire: int, used: int, total: int, upload: int, download: int,
                           date: LocalDate, rolledOver: bool)

  /** One request: the counters, the clock, and the local day and next midnight that follow from it. */
  datatype Request = Request(per: PerSource, now: int, today: int, midnight: int)

  /** The snapshot a request works with. */
  ghost function Current(req: Request, snap: Option<Snapshot>): (s: Snapshot) {
    var a := DailyAllowance(req.per, req.now);
    if RolloverNeeded(snap, req.today) then Captured(req.per, a.perDay + a.noExpiry, req.now, req.today) else snap.value
  }

  ghost function HeaderOf(req: Request, snap: Option<Snapshot>): (h: Header) {
    var s := Current(req, snap);
    var used := Total(req.per, s).delta;
    var split := Shares(used, Total(req.per, s));
    Header(s.allowance, req.midnight, used, s.allowance + used, split.0, split.1, s.date,
           RolloverNeeded(snap, req.today))
  }

  /** `ComposeServedTrafficHeaderWithSpend` */
  method ComposeServedTrafficHeaderWithSpend(req: Request, snap: Option<Snapshot>)
    returns (h: Option<Header>, next: Option<Snapshot>)
    ensures |req.per| == 0 ==> h == None && next == snap
    ensures |req.per| > 0 ==> h == Some(HeaderOf(req, snap)) && next == Some(Current(req, snap))
  {
    hide DailyAllowance, Total, Shares, Captured;
    if |req.per| == 0 { return None, snap; }
    var a := ComputeDailyAllowance(req.per, req.now);
    var rolledOver := false;
    next := snap;
    if next.None? || next.value.date != Day(req.today) {
      var s := CaptureSnapshot(req.per, a.perDay + a.noExpiry, req.now, req.today);
      next, rolledOver := Some(s), true;
    }
    var used := ComputeUsedToday(req.per, next);
    var up, down := SplitUsedToday(used, req.per, next);
    h := Some(Header(next.value.allowance, req.midnight, used, next.value.allowance + used, up, down, next.value.date,
                     rolledOver));
  }

  /** The total the renderer writes: an all-zero total falls back to the allowance. */
  function EmittedTotal(h: Header): (t: int) { if h.total == 0 then h.allowance else h.total }

  /** What a client computes as left over, total minus upload minus download, is the pinned
      allowance exactly when the fallback branch is not taken with something used. */
  lemma EmittedAllowance(req: Request, snap: Option<Snapshot>)
    ensures var h := HeaderOf(req, snap);
            && h.upload >= 0 && h.download >= 0 && h.upload + h.download == h.used
            && (EmittedTotal(h) - h.upload - h.download == h.allowance <==> h.allowance + h.used != 0 || h.used == 0)
  {
    SplitConserves(req.per, Current(req, snap));
  }

  /** With a pinned allowance that is not negative, as validation and capture guarantee, it always
      holds. */
  lemma EmittedAllowanceHolds(req: Request, snap: Option<Snapshot>)
    requires snap.Some? ==> snap.value.allowance >= 0
    ensures var h := HeaderOf(req, snap); EmittedTotal(h) - h.upload - h.download == h.allowance
  {
    EmittedAllowance(req, snap);
  }

  /** The header of a request that rolls over pins what the plans allow today; any other repeats the pinned
      allowance. Each expires at the request's midnight and totals the allowance and what is used. */
  lemma HeaderExactly(req: Request, snap: Option<Snapshot>)
    ensures Listed(SortedKeys(req.per.Keys), req.per)
    ensures var h, names := HeaderOf(req, snap), SortedKeys(req.per.Keys);
            && h.expire == req.midnight && h.total == h.allowance + h.used && h.date == Day(req.today)
            && (h.rolledOver <==> snap.None? || snap.value.date != Day(req.today))
            && h.allowance == if h.rolledOver then RatesOf(names, req.per, req.now) + OpenOf(names, req.per)
                              else snap.value.allowance
  {
    hide SortedKeys, Total, Shares, AllowanceOf, Rate, Remaining;
    AllowanceExactly(req.per, req.now);
  }

  // ----- the ledger

  /** `MapSnapshotter`: what was saved last. */
  class MapSnapshotter {
    var current: Option<Snapshot>

    constructor ()
      ensures current == None
    {
      current := None;
    }

    method Load() returns (s: Option<Snapshot>)
      ensures s == current
    {
      s := current;
    }

    method Save(s: Snapshot)
      modifies this
      ensures current == Some(s)
    {
      current := Some(s);
    }

    /** The traffic part of `Build`: load, compose, and save when a snapshot was captured. */
    method Serve(req: Request, saveOk: bool) returns (h: Option<Header>)
      modifies this
      ensures |req.per| == 0 ==> h == None && current == old(current)
      ensures |req.per| > 0 ==> h == Some(HeaderOf(req, old(current)))
      ensures |req.per| > 0 && saveOk ==> current == Some(Current(req, old(current)))
      ensures !saveOk ==> current == old(current)
    {
      hide HeaderOf, Captured, DailyAllowance;
      var loaded := Load();
      var next;
      h, next := ComposeServedTrafficHeaderWithSpend(req, loaded);
      if next.Some? && h.Some? && h.value.rolledOver && saveOk { Save(next.value); }
      assert |req.per| > 0 ==> h.value.rolledOver == RolloverNeeded(loaded, req.today) by { RolledOver(req, loaded); }
    }
  }

  lemma RolledOver(req: Request, snap: Option<Snapshot>)
    ensures HeaderOf(req, snap).rolledOver == RolloverNeeded(snap, req.today)
            && HeaderOf(req, snap).allowance == Current(req, snap).allowance
  {
  }

  /** `FileSnapshotter.Load`: what does not validate counts as absent. */
  function Loaded(stored: Option<Snapshot>): (s: Option<Snapshot>) {
    if stored.Some? && ValidSnapshot(stored.value) then stored else None
  }

  /** A run of requests with some userinfo each and successful saves: `stored[i]` is on disk when
      request `i` arrives. */
  ghost predicate LedgerRun(stored: seq<Option<Snapshot>>, reqs: seq<Request>) {
    && |stored| == |reqs| + 1
    && forall i :: 0 <= i < |reqs| ==> |reqs[i].per| > 0 && stored[i + 1] == SavedAfter(reqs[i], stored[i])
  }

  ghost function SavedAfter(req: Request, stored: Option<Snapshot>): (s: Option<Snapshot>) {
    Some(Current(req, Loaded(stored)))
  }

  ghost function Answer(stored: seq<Option<Snapshot>>, reqs: seq<Request>, i: nat): (h: Header)
    requires LedgerRun(stored, reqs) && i < |reqs|
  {
    HeaderOf(reqs[i], Loaded(stored[i]))
  }

  ghost predicate NoRollover(stored: seq<Option<Snapshot>>, reqs: seq<Request>, i: nat, j: nat)
    requires LedgerRun(stored, reqs) && i <= j < |reqs|
  {
    forall k :: i < k <= j ==> !Answer(stored, reqs, k).rolledOver
  }

  /** Until the next rollover the snapshot, and with it allowance and date, stay as they are. */
  lemma {:induction false} PinnedUntilRollover(stored: seq<Option<Snapshot>>, reqs: seq<Request>, i: nat, j: nat)
    requires LedgerRun(stored, reqs) && i <= j < |reqs| && NoRollover(stored, reqs, i, j)
    ensures stored[j + 1] == stored[i + 1]
    ensures Answer(stored, reqs, j).allowance == Answer(stored, reqs, i).allowance
            && Answer(stored, reqs, j).date == Answer(stored, reqs, i).date
    decreases j
  {
    hide HeaderOf, Captured, DailyAllowance, ValidSnapshot;
    AnswerPins(stored, reqs, i);
    AnswerPins(stored, reqs, j);
    if i < j {
      PinnedUntilRollover(stored, reqs, i, j - 1);
      assert !Answer(stored, reqs, j).rolledOver;
      assert stored[j - 1 + 1] == stored[j];
    }
  }

  lemma AnswerPins(stored: seq<Option<Snapshot>>, reqs: seq<Request>, i: nat)
    requires LedgerRun(stored, reqs) && i < |reqs|
    ensures stored[i + 1] == SavedAfter(reqs[i], stored[i]) && stored[i + 1].Some?
    ensures var h := Answer(stored, reqs, i);
            && h.allowance == stored[i + 1].value.allowance && h.date == stored[i + 1].value.date
            && h.used == Total(reqs[i].per, stored[i + 1].value).delta
            && (h.upload, h.download) == Shares(h.used, Total(reqs[i].per, stored[i + 1].value))
            && h.rolledOver == RolloverNeeded(Loaded(stored[i]), reqs[i].today)
  {
  }

  /** The sum of the sources' counters. */
  function Counters(names: seq<string>, per: PerSource): (n: int)
    requires Listed(names, per)
  {
    if names == [] then 0 else Counters(names[..|names| - 1], per) + Counter(per[names[|names| - 1]])
  }

  ghost function AllCounters(per: PerSource): (n: int) {
    KeysListed(per);
    Counters(SortedKeys(per.Keys), per)
  }

  lemma {:induction false} GrowthOf(names: seq<string>, per: PerSource, base: PerSource, s: Snapshot)
    requires Listed(names, per) && Listed(names, base)
    requires forall n :: n in names ==>
               n in s.baselines && s.baselines[n] == Counter(base[n]) && Counter(base[n]) <= Counter(per[n])
    ensures Sums(names, per, s).delta == Counters(names, per) - Counters(names, base)
  {
    if names != [] {
      var n := names[|names| - 1];
      assert n in names;
      GrowthOf(names[..|names| - 1], per, base, s);
    }
  }

  /** At a rollover nothing is used yet. */
  lemma UsedIsZeroAtRollover(req: Request, snap: Option<Snapshot>)
    requires RolloverNeeded(snap, req.today)
    ensures HeaderOf(req, snap).used == 0 && HeaderOf(req, snap).upload == 0 && HeaderOf(req, snap).download == 0
  {
    hide SortedKeys;
    var s, names := Current(req, snap), SortedKeys(req.per.Keys);
    KeysListed(req.per);
    GrowthOf(names, req.per, req.per, s);
  }

  /** For fixed sources whose counters do not fall, what is used equals the total growth since the
      rollover at request `r`. */
  lemma UsedIsGrowth(stored: seq<Option<Snapshot>>, reqs: seq<Request>, r: nat, j: nat)
    requires LedgerRun(stored, reqs) && r <= j < |reqs| && NoRollover(stored, reqs, r, j)
             && Answer(stored, reqs, r).rolledOver
    requires reqs[j].per.Keys == reqs[r].per.Keys
    requires forall n :: n in reqs[r].per ==> Counter(reqs[r].per[n]) <= Counter(reqs[j].per[n])
    ensures Answer(stored, reqs, j).used == AllCounters(reqs[j].per) - AllCounters(reqs[r].per)
  {
    hide SortedKeys, HeaderOf, DailyAllowance, ValidSnapshot;
    PinnedUntilRollover(stored, reqs, r, j);
    AnswerPins(stored, reqs, r);
    AnswerPins(stored, reqs, j);
    var s, names := stored[r + 1].value, SortedKeys(reqs[r].per.Keys);
    KeysListed(reqs[r].per);
    KeysListed(reqs[j].per);
    assert forall n :: n in names ==> n in reqs[r].per;
    GrowthOf(names, reqs[j].per, reqs[r].per, s);
  }

  lemma CapturedAt(stored: seq<Option<Snapshot>>, reqs: seq<Request>, r: nat)
    requires LedgerRun(stored, reqs) && r < |reqs| && Answer(stored, reqs, r).rolledOver
    ensures stored[r + 1].Some? && Recorded(reqs[r].per, stored[r + 1].value)
    ensures NonNegative(reqs[r].per) ==> RatiosOk(stored[r + 1].value)
  {
    hide HeaderOf, DailyAllowance, Captured, NonNegative, RatiosOk, Current, Recorded, RolloverNeeded, ValidSnapshot,
         Loaded, Shares, Total;
    AnswerPins(stored, reqs, r);
    CurrentIsRecorded(reqs[r], Loaded(stored[r]));
  }

  lemma CurrentIsRecorded(req: Request, snap: Option<Snapshot>)
    requires RolloverNeeded(snap, req.today)
    ensures Recorded(req.per, Current(req, snap))
    ensures NonNegative(req.per) ==> RatiosOk(Current(req, snap))
  {
    hide DailyAllowance, Captured, NonNegative, RatiosOk, Recorded, ValidSnapshot, RolloverNeeded, Current;
    CurrentIsCaptured(req, snap);
    var a := DailyAllowance(req.per, req.now);
    CapturedIsRecorded(req.per, a.perDay + a.noExpiry, req.now, req.today);
    if NonNegative(req.per) {
      CapturedIsValid(req.per, a.perDay + a.noExpiry, req.now, req.today);
      ValidRatios(Captured(req.per, a.perDay + a.noExpiry, req.now, req.today));
    }
  }

  lemma CurrentIsCaptured(req: Request, snap: Option<Snapshot>)
    requires RolloverNeeded(snap, req.today)
    ensures var a := DailyAllowance(req.per, req.now);
            Current(req, snap) == Captured(req.per, a.perDay + a.noExpiry, req.now, req.today)
  {
  }

  lemma ValidRatios(s: Snapshot)
    requires ValidSnapshot(s)
    ensures RatiosOk(s)
  {
  }

  /** Between rollovers, whatever sources come and go: what the header calls used is the sum of the growths
      since the rollover at request `r`, and its upload is the rounded sum of each source's growth times the
      share of upload its counters had then. */
  lemma HeaderSinceRollover(stored: seq<Option<Snapshot>>, reqs: seq<Request>, r: nat, j: nat)
    requires LedgerRun(stored, reqs) && r <= j < |reqs| && NoRollover(stored, reqs, r, j)
             && Answer(stored, reqs, r).rolledOver && NonNegative(reqs[r].per)
    ensures Listed(SortedKeys(reqs[j].per.Keys), reqs[j].per)
    ensures var h, t := Answer(stored, reqs, j), UsedSince(SortedKeys(reqs[j].per.Keys), reqs[j].per, reqs[r].per);
            h.used == t.delta && Rounded(t.weighted, h.upload) && h.download == h.used - h.upload
  {
    hide SortedKeys, HeaderOf, DailyAllowance, ValidSnapshot, Captured, NonNegative, RatiosOk, Recorded, Round, Rounded,
         Shares, UsedSince, Sums, Listed, RolloverNeeded;
    PinnedUntilRollover(stored, reqs, r, j);
    AnswerPins(stored, reqs, j);
    CapturedAt(stored, reqs, r);
    KeysListed(reqs[j].per);
    var s, per := stored[r + 1].value, reqs[j].per;
    SumsSinceCapture(SortedKeys(per.Keys), per, reqs[r].per, s);
    SplitConserves(per, s);
    var h := Answer(stored, reqs, j);
    NothingRounds();
    RoundExactly(Total(per, s).weighted, h.upload);
  }

  lemma NothingRounds()
    ensures Round(0.0) == 0
  {
  }

  /** With one source: the growth times upload over upload plus download at the rollover, rounded. */
  lemma OneSourceSinceRollover(stored: seq<Option<Snapshot>>, reqs: seq<Request>, r: nat, j: nat, n: string)
    requires LedgerRun(stored, reqs) && r <= j < |reqs| && NoRollover(stored, reqs, r, j)
             && Answer(stored, reqs, r).rolledOver && NonNegative(reqs[r].per)
    requires reqs[j].per.Keys == {n} && n in reqs[r].per
    ensures var h, at, now := Answer(stored, reqs, j), reqs[r].per[n], reqs[j].per[n];
            var all := at.upload + at.download;
            var grown := now.upload + now.download - all;
            && h.used == (if grown > 0 then grown else 0)
            && (all > 0 ==> Rounded(ShareOf(h.used, at.upload, all), h.upload))
            && (all == 0 ==> h.upload == 0)
  {
    hide SortedKeys, HeaderOf, DailyAllowance, ValidSnapshot, NonNegative, Answer, ShareOf, Rounded;
    HeaderSinceRollover(stored, reqs, r, j);
    AscendingUnique(SortedKeys({n}), [n]);
    assert [n][..0] == [];
    var per, base := reqs[j].per, reqs[r].per;
    assert UsedSince([n][..0], per, base) == Totals(0, 0.0);
    assert UsedSince([n], per, base) == Totals(Growth(base[n], per[n]), GrowthUp(base[n], per[n]));
    CountersAreNatural(base, n);
    var all, h := base[n].upload + base[n].download, Answer(stored, reqs, j);
    assert SortedKeys(per.Keys) == [n];
    assert h.used == Growth(base[n], per[n]) && Rounded(GrowthUp(base[n], per[n]), h.upload);
    OnlyZero(Answer(stored, reqs, j).upload);
  }

  lemma CountersAreNatural(per: PerSource, n: string)
    requires NonNegative(per) && n in per
    ensures per[n].upload >= 0 && per[n].download >= 0
  {
  }

  lemma OnlyZero(n: int)
    ensures Rounded(0.0, n) ==> n == 0
  {
  }

  /** With non-negative counters every stored snapshot is loaded again as it was saved. */
  lemma {:induction false} SavedSnapshotsLoad(stored: seq<Option<Snapshot>>, reqs: seq<Request>, i: nat)
    requires LedgerRun(stored, reqs) && i < |reqs| && forall k :: 0 <= k < |reqs| ==> NonNegative(reqs[k].per)
    ensures Loaded(stored[i + 1]) == stored[i + 1]
  {
    hide HeaderOf, DailyAllowance, Captured, SortedKeys;
    AnswerPins(stored, reqs, i);
    var a := DailyAllowance(reqs[i].per, reqs[i].now);
    CapturedIsValid(reqs[i].per, a.perDay + a.noExpiry, reqs[i].now, reqs[i].today);
  }

  /** What is on disk is of that day, and its allowance and ratios are in range. */
  ghost predicate UsableOn(stored: Option<Snapshot>, today: int) {
    && stored.Some? && stored.value.date == Day(today) && stored.value.allowance >= 0
    && forall n :: n in stored.value.ratios ==> 0.0 <= stored.value.ratios[n] <= 1.0
  }

  lemma UsableMeans(stored: Option<Snapshot>, today: int)
    ensures RolloverNeeded(Loaded(stored), today) <==> !UsableOn(stored, today)
  {
  }

  /** Rollover fires on the first request exactly when nothing usable of its day is stored, and on
      every later request exactly when the local day has changed since the request before. */
  lemma RolloverExactly(stored: seq<Option<Snapshot>>, reqs: seq<Request>, i: nat)
    requires LedgerRun(stored, reqs) && i < |reqs| && forall k :: 0 <= k < |reqs| ==> NonNegative(reqs[k].per)
    ensures i == 0 ==> (!Answer(stored, reqs, i).rolledOver <==> UsableOn(stored[0], reqs[0].today))
    ensures i > 0 ==> (Answer(stored, reqs, i).rolledOver <==> reqs[i].today != reqs[i - 1].today)
    ensures Answer(stored, reqs, i).date == Day(reqs[i].today)
  {
    hide HeaderOf, DailyAllowance, SortedKeys, NonNegative, ValidSnapshot;
    AnswerPins(stored, reqs, i);
    UsableMeans(stored[0], reqs[0].today);
    if i > 0 {
      AnswerPins(stored, reqs, i - 1);
      SavedSnapshotsLoad(stored, reqs, i - 1);
      assert stored[i - 1 + 1] == stored[i];
    }
  }
}
