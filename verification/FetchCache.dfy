/** The upstream cache: per-source entries, refresh with stale-on-error retention, and dropping. */
module FetchCache {
  import opened Yaml

  datatype Payload = Payload(body: string)

  /** `storedAt` is meaningful only with a payload; `failedAt` is None for the zero time. */
  datatype Entry = Entry(payload: Option<Payload>, storedAt: int, lastError: string, failedAt: Option<int>)

  datatype CacheState = Missing | Fresh | Stale

  /** What a fetch brings back, and whether the snapshot could be written to disk. */
  datatype Outcome = Fetched(payload: Payload, persisted: bool) | FetchFailed(error: string)

  datatype Refresh = Refresh(entry: Option<Entry>, payload: Option<Payload>, fetched: bool, error: Option<string>)

  const EMPTY := Entry(None, 0, "", None)
  const PERSIST_ERROR := "cache: persist"

  function PayloadOf(e: Option<Entry>): (p: Option<Payload>) { if e.Some? then e.value.payload else None }

  /** `State` */
  function StateOf(e: Option<Entry>, ttl: int, now: int): (s: CacheState) {
    if PayloadOf(e).None? then Missing else if now - e.value.storedAt < ttl then Fresh else Stale
  }

  /** `set` */
  function Stored(p: Payload, at: int): (e: Entry) { Entry(Some(p), at, "", None) }

  /** `markFailed` */
  function Marked(e: Option<Entry>, error: string, now: int): (r: Entry) {
    (if e.Some? then e.value else EMPTY).(lastError := error, failedAt := Some(now))
  }

  /** `RefreshIfStale` by a caller that wins the gate: the fetch starts at `started` and a failure
      is recorded at `ended`. */
  function Refreshed(e: Option<Entry>, ttl: int, started: int, ended: int, persistent: bool, o: Outcome): (r: Refresh) {
    if StateOf(e, ttl, started) == Fresh then Refresh(e, PayloadOf(e), false, None)
    else match o
      case FetchFailed(error) => Refresh(Some(Marked(e, error, ended)), PayloadOf(e), true, Some(error))
      case Fetched(p, persisted) =>
        Refresh(Some(Stored(p, started)), Some(p), true, if persistent && !persisted then Some(PERSIST_ERROR) else None)
  }

  /** `shouldDrop` */
  predicate ShouldDrop(e: Option<Entry>, window: int, now: int) {
    e.Some? && e.value.failedAt.Some? && e.value.payload.Some? && now - e.value.storedAt > window
  }

  class Cache {
    var byName: map<string, Entry>
    /** Whether snapshots go to disk. */
    const persistent: bool

    constructor (persistent: bool)
      ensures byName == map[] && this.persistent == persistent
    {
      byName := map[];
      this.persistent := persistent;
    }

    function Find(name: string): (e: Option<Entry>)
      reads this
    {
      if name in byName then Some(byName[name]) else None
    }

    method Get(name: string) returns (p: Option<Payload>)
      ensures p == PayloadOf(Find(name))
    {
      if name !in byName || byName[name].payload.None? { return None; }
      return byName[name].payload;
    }

    method State(name: string, ttl: int, now: int) returns (s: CacheState)
      ensures s == StateOf(Find(name), ttl, now)
    {
      if name !in byName || byName[name].payload.None? { return Missing; }
      if now - byName[name].storedAt < ttl { return Fresh; }
      return Stale;
    }

    method Set(name: string, p: Payload, storedAt: int, persisted: bool) returns (error: Option<string>)
      modifies this
      ensures byName == old(byName)[name := Stored(p, storedAt)]
      ensures error == if persistent && !persisted then Some(PERSIST_ERROR) else None
    {
      var e := if name in byName then byName[name] else EMPTY;
      e := e.(payload := Some(p), storedAt := storedAt, lastError := "", failedAt := None);
      byName := byName[name := e];
      if !persistent { return None; }
      return if persisted then None else Some(PERSIST_ERROR);
    }

    method MarkFailed(name: string, error: string, now: int)
      modifies this
      ensures byName == old(byName)[name := Marked(old(Find(name)), error, now)]
    {
      var e := if name in byName then byName[name] else EMPTY;
      byName := byName[name := e.(lastError := error, failedAt := Some(now))];
    }

    method Drop(name: string)
      modifies this
      ensures byName == old(byName) - {name}
    {
      byName := byName - {name};
    }

    /** `RefreshIfStale`; the fetch's outcome and the clock's readings come from outside. */
    method RefreshIfStale(name: string, ttl: int, started: int, ended: int, o: Outcome)
      returns (p: Option<Payload>, fetched: bool, error: Option<string>)
      modifies this
      ensures var r := Refreshed(old(Find(name)), ttl, started, ended, persistent, o);
              && p == r.payload && fetched == r.fetched && error == r.error && Find(name) == r.entry
              && forall n :: n != name ==> Find(n) == old(Find(n))
    {
      var s := State(name, ttl, started);
      if s == Fresh {
        p := Get(name);
        return p, false, None;
      }
      fetched := true;
      match o
      case FetchFailed(e) =>
        MarkFailed(name, e, ended);
        p := Get(name);
        error := Some(e);
      case Fetched(q, persisted) =>
        error := Set(name, q, started, persisted);
        p := Some(q);
    }
  }

  // ----- laws

  /** Exactly what a refresh does: it fetches unless there is a payload younger than the ttl; what was
      fetched is stored under the stamp of the start and handed out, written to disk or not; a failure
      keeps and hands out the old payload under its old stamp, and is recorded. */
  lemma RefreshExactly(e: Option<Entry>, ttl: int, started: int, ended: int, persistent: bool, o: Outcome)
    ensures var r := Refreshed(e, ttl, started, ended, persistent, o);
            && (r.fetched <==> PayloadOf(e).None? || started - e.value.storedAt >= ttl)
            && (!r.fetched ==> r.entry == e && r.payload == PayloadOf(e) && r.error.None?)
            && (r.fetched && o.Fetched? ==>
               && r.payload == Some(o.payload) && r.entry == Some(Entry(Some(o.payload), started, "", None))
               && (r.error.Some? <==> persistent && !o.persisted))
            && (r.fetched && o.FetchFailed? ==>
               && r.payload == PayloadOf(e) == PayloadOf(r.entry) && r.error == Some(o.error) && r.entry.Some?
               && r.entry.value.storedAt == (if e.Some? then e.value.storedAt else 0)
               && r.entry.value.lastError == o.error && r.entry.value.failedAt == Some(ended))
  {
  }

  /** A refresh never loses the payload; a fetched one is served until `ttl` after the fetch began,
      even when it could not be written to disk. */
  lemma RefreshKeepsServing(e: Option<Entry>, ttl: int, started: int, ended: int, persistent: bool, o: Outcome,
                            later: int)
    requires ttl > 0 && started <= later
    ensures var r := Refreshed(e, ttl, started, ended, persistent, o);
            && (PayloadOf(e).Some? ==> PayloadOf(r.entry).Some?)
            && r.payload == PayloadOf(r.entry)
            && (r.fetched && o.Fetched? ==> (StateOf(r.entry, ttl, later) == Fresh <==> later - started < ttl))
            && (r.fetched && o.FetchFailed? ==>
               PayloadOf(r.entry) == PayloadOf(e) && StateOf(r.entry, ttl, later) == StateOf(e, ttl, later))
            && (!r.fetched ==> r.entry == e && r.error.None?)
  {
  }

  /** After a refresh that only failed to persist, the next attempt finds a fresh entry: it neither
      fetches nor fails, whatever an upstream would say. */
  lemma PersistFailureHeals(e: Option<Entry>, ttl: int, started: int, ended: int, p: Payload, next: int, end: int,
                            o: Outcome)
    requires StateOf(e, ttl, started) != Fresh && started <= next < started + ttl
    ensures var r := Refreshed(e, ttl, started, ended, true, Fetched(p, false));
            r.error.Some? && Refreshed(r.entry, ttl, next, end, true, o) == Refresh(r.entry, Some(p), false, None)
  {
  }

  // ----- the age of what is served

  /** One refreshing source under a punctual ticker and instant fetches. */
  datatype Line = Line(now: int, entry: Option<Entry>, nextTick: int)

  datatype Act = Advance(d: nat) | Tick(o: Outcome)

  datatype Timing = Timing(ttl: int, window: int, persistent: bool)

  /** The body of the ticker loop of `runSteady`. */
  function AfterTick(k: Timing, e: Option<Entry>, now: int, o: Outcome): (r: Option<Entry>) {
    var r := Refreshed(e, k.ttl, now, now, k.persistent, o);
    if r.error.Some? && ShouldDrop(r.entry, k.window, now) then None else r.entry
  }

  ghost predicate Can(s: Line, a: Act) {
    match a case Advance(d) => s.now + d <= s.nextTick case Tick(_) => s.now == s.nextTick
  }

  function Do(k: Timing, s: Line, a: Act): (t: Line) {
    match a
    case Advance(d) => s.(now := s.now + d)
    case Tick(o) => Line(s.now, AfterTick(k, s.entry, s.now, o), s.now + k.ttl)
  }

  ghost predicate Timeline(k: Timing, run: seq<Line>, acts: seq<Act>) {
    && k.ttl > 0 && |run| == |acts| + 1 && run[0].nextTick == run[0].now + k.ttl
    && forall i :: 0 <= i < |acts| ==> Can(run[i], acts[i]) && run[i + 1] == Do(k, run[i], acts[i])
  }

  ghost predicate Served(s: Line) { PayloadOf(s.entry).Some? }

  ghost function Age(s: Line): (n: int)
    requires Served(s)
  {
    s.now - s.entry.value.storedAt
  }

  function Max(a: int, b: int): (m: int) { if a < b then b else a }

  /** Right after any tick a payload that remains is at most max(ttl, window) old. */
  lemma AgeAfterTick(k: Timing, run: seq<Line>, acts: seq<Act>, i: nat)
    requires Timeline(k, run, acts) && i < |acts| && acts[i].Tick? && Served(run[i + 1])
    ensures Age(run[i + 1]) <= Max(k.ttl, k.window)
  {
  }

  /** From the first tick on, at any time, at most that plus one ttl. */
  lemma {:induction false} AgeBetweenTicks(k: Timing, run: seq<Line>, acts: seq<Act>, i: nat, j: nat)
    requires Timeline(k, run, acts) && i < j <= |acts| && acts[i].Tick?
    ensures run[j].now <= run[j].nextTick
    ensures Served(run[j]) ==>
            Age(run[j]) <= Age(run[j]) + (run[j].nextTick - run[j].now) <= Max(k.ttl, k.window) + k.ttl
  {
    if j == i + 1 {
      if Served(run[j]) { AgeAfterTick(k, run, acts, i); }
    } else {
      AgeBetweenTicks(k, run, acts, i, j - 1);
      assert Can(run[j - 1], acts[j - 1]) && run[j - 1 + 1] == Do(k, run[j - 1], acts[j - 1]);
      if acts[j - 1].Tick? && Served(run[j]) { AgeAfterTick(k, run, acts, j - 1); }
    }
  }

  /** If the source starts out fresh and every fetch succeeds, what is served is always younger
      than twice the ttl, and it is never missing. */
  lemma {:induction false} AgeWhenAllSucceed(k: Timing, run: seq<Line>, acts: seq<Act>, j: nat)
    requires Timeline(k, run, acts) && j <= |acts| && StateOf(run[0].entry, k.ttl, run[0].now) == Fresh
    requires forall i :: 0 <= i < |acts| && acts[i].Tick? ==> acts[i].o.Fetched?
    ensures Served(run[j]) && run[j].now <= run[j].nextTick
    ensures Age(run[j]) <= Age(run[j]) + (run[j].nextTick - run[j].now) < 2 * k.ttl
  {
    if j > 0 {
      AgeWhenAllSucceed(k, run, acts, j - 1);
      assert Can(run[j - 1], acts[j - 1]) && run[j - 1 + 1] == Do(k, run[j - 1], acts[j - 1]);
    }
  }

  /** A payload disappears exactly when a tick's fetch fails and the payload is past the window. */
  lemma DroppedOnlyPastWindow(k: Timing, run: seq<Line>, acts: seq<Act>, i: nat)
    requires Timeline(k, run, acts) && i < |acts| && Served(run[i])
    ensures !Served(run[i + 1]) <==>
            acts[i].Tick? && acts[i].o.FetchFailed? && Age(run[i]) >= k.ttl && Age(run[i]) > k.window
  {
    assert Can(run[i], acts[i]) && run[i + 1] == Do(k, run[i], acts[i]);
  }
}
