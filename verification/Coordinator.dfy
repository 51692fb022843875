/** The fetch coordinator as a transition system: one goroutine per enabled source, the bootstrap
    wait-group, the once-closed ready signal, cancellation, and the handler's three-way gate. */
module Coordinator {
  import opened Yaml

  datatype Bootstrap = Pending | Succeeded | Failed

  /** Where a source's goroutine is. `Loop(n)` is the top of attempt `n`, `Leaving` the return
      that still owes the wait-group its deferred `Done`. */
  datatype Phase = Off | Loop(n: nat) | Refreshing(n: nat) | Waiting(n: nat) | MarkOk | MarkFail | Release
                 | Steady | Ticking | Promote | Leaving | Exited

  /** `refreshing` is false for a source configured never to refresh. */
  datatype Row = Row(enabled: bool, refreshing: bool)

  /** `done` counts the goroutine's calls of the wait-group's `Done`, `fetches` its fetches. */
  datatype Source = Source(phase: Phase, bootstrap: Bootstrap, done: nat, fetches: nat)

  datatype Config = Config(rows: seq<Row>, maxAttempts: int)

  /** `Start` itself: not called yet, blocked on the wait-group, or returned. */
  datatype Main = NotStarted | Blocked | Returned

  datatype Sys = Sys(sources: seq<Source>, main: Main, wg: int, ready: bool, cancelled: bool)

  /** One atomic step of a source's goroutine; `fetch` says whether the cache had to fetch. */
  datatype Move = Attempt(fetch: bool) | SeeCancel | Ok | Err | DelayOver | Mark | Done | Tick(fetch: bool)

  datatype Action = Start | Signal | Cancel | Step(i: nat, move: Move)

  function Attempts(k: Config): (n: nat)
    ensures n >= 1
  {
    if k.maxAttempts < 1 then 1 else k.maxAttempts
  }

  function Count(fetch: bool): (n: nat) { if fetch then 1 else 0 }

  /** `bootstrapAndRun` and `runSteady`, one step at a time. */
  function Moved(row: Row, max: nat, cancelled: bool, s: Source, m: Move): (r: Option<Source>) {
    match (s.phase, m)
    case (Loop(n), Attempt(f)) =>
      if cancelled then None else Some(s.(phase := Refreshing(n), fetches := s.fetches + Count(f)))
    case (Loop(_), SeeCancel) => if cancelled then Some(s.(phase := Leaving)) else None
    case (Refreshing(_), Ok) => Some(s.(phase := MarkOk))
    case (Refreshing(n), Err) => Some(s.(phase := if n >= max then MarkFail else Waiting(n)))
    case (Waiting(n), DelayOver) => Some(s.(phase := Loop(n + 1)))
    case (Waiting(_), SeeCancel) => if cancelled then Some(s.(phase := Leaving)) else None
    case (MarkOk, Mark) => Some(s.(phase := Release, bootstrap := Succeeded))
    case (MarkFail, Mark) => Some(s.(phase := Release, bootstrap := Failed))
    case (Release, Done) => Some(s.(phase := Steady, done := s.done + 1))
    case (Leaving, Done) => Some(s.(phase := Exited, done := s.done + 1))
    case (Steady, Tick(f)) =>
      if row.refreshing then Some(s.(phase := Ticking, fetches := s.fetches + Count(f))) else None
    case (Steady, SeeCancel) => if cancelled then Some(s.(phase := Exited)) else None
    case (Ticking, Err) => Some(s.(phase := Steady))
    case (Ticking, Ok) => Some(s.(phase := Promote))
    case (Promote, Mark) =>
      Some(s.(phase := Steady, bootstrap := if s.bootstrap == Failed then Succeeded else s.bootstrap))
    case _ => None
  }

  /** Enabled sources whose goroutine has not released the wait-group. */
  function Unreleased(rows: seq<Row>, ss: seq<Source>): (n: nat)
    requires |rows| == |ss|
  {
    if ss == [] then 0 else
      var last := |ss| - 1;
      Unreleased(rows[..last], ss[..last]) + (if rows[last].enabled && ss[last].done == 0 then 1 else 0)
  }

  function Launched(rows: seq<Row>, ss: seq<Source>): (r: seq<Source>)
    requires |rows| == |ss|
    ensures |r| == |ss|
  {
    seq(|ss|, i requires 0 <= i < |ss| => if rows[i].enabled then ss[i].(phase := Loop(1)) else ss[i])
  }

  /** `NewCoordinator` */
  ghost predicate Init(k: Config, s: Sys) {
    && |s.sources| == |k.rows| && s.main == NotStarted && s.wg == 0 && !s.ready
    && forall i :: 0 <= i < |k.rows| ==>
         s.sources[i] == Source(Off, if k.rows[i].enabled then Pending else Succeeded, 0, 0)
  }

  function After(k: Config, s: Sys, a: Action): (r: Option<Sys>) {
    match a
    case Start =>
      if s.main != NotStarted || |s.sources| != |k.rows| then None
      else if Unreleased(k.rows, s.sources) == 0 then Some(s.(main := Returned, ready := true))
      else Some(s.(main := Blocked, wg := Unreleased(k.rows, s.sources), sources := Launched(k.rows, s.sources)))
    case Signal => if s.main == Blocked && s.wg == 0 then Some(s.(main := Returned, ready := true)) else None
    case Cancel => Some(s.(cancelled := true))
    case Step(i, m) =>
      if i >= |s.sources| || |s.sources| != |k.rows| then None else
        match Moved(k.rows[i], Attempts(k), s.cancelled, s.sources[i], m)
        case None => None
        case Some(src) => Some(s.(sources := s.sources[i := src], wg := s.wg - (src.done - s.sources[i].done)))
  }

  ghost predicate Next(k: Config, s: Sys, t: Sys) { exists a :: After(k, s, a) == Some(t) }

  /** A finite prefix of an execution. */
  ghost predicate Run(k: Config, run: seq<Sys>) {
    && run != [] && Init(k, run[0])
    && forall i :: 0 <= i < |run| - 1 ==> Next(k, run[i], run[i + 1])
  }

  // ----- the invariant

  ghost predicate SourceInv(row: Row, max: nat, cancelled: bool, s: Source) {
    match s.phase
    case Off => s.done == 0 && s.fetches == 0 && s.bootstrap == if row.enabled then Pending else Succeeded
    case Loop(n) => row.enabled && 1 <= n <= max && s.bootstrap == Pending && s.done == 0 && s.fetches < n
    case Refreshing(n) => row.enabled && 1 <= n <= max && s.bootstrap == Pending && s.done == 0 && s.fetches <= n
    case Waiting(n) => row.enabled && 1 <= n < max && s.bootstrap == Pending && s.done == 0 && s.fetches <= n
    case MarkOk => row.enabled && s.bootstrap == Pending && s.done == 0 && s.fetches <= max
    case MarkFail => row.enabled && s.bootstrap == Pending && s.done == 0 && s.fetches <= max
    case Release => row.enabled && s.bootstrap != Pending && s.done == 0 && s.fetches <= max
    case Leaving => row.enabled && s.bootstrap == Pending && s.done == 0 && s.fetches <= max && cancelled
    case Exited => row.enabled && s.done == 1 && cancelled && (!row.refreshing ==> s.fetches <= max)
    case _ =>
      && row.enabled && s.bootstrap != Pending && s.done == 1
      && (!row.refreshing ==> s.phase == Steady && s.fetches <= max)
  }

  ghost predicate Inv(k: Config, s: Sys) {
    && |s.sources| == |k.rows|
    && (forall i :: 0 <= i < |k.rows| ==> SourceInv(k.rows[i], Attempts(k), s.cancelled, s.sources[i]))
    && (s.main == NotStarted ==> s.wg == 0 && !s.ready && forall i :: 0 <= i < |k.rows| ==> s.sources[i].phase == Off)
    && (s.main != NotStarted ==> s.wg == Unreleased(k.rows, s.sources))
    && (s.main == Blocked ==>
         !s.ready && forall i :: 0 <= i < |k.rows| ==> (s.sources[i].phase == Off <==> !k.rows[i].enabled))
    && (s.main == Returned ==> s.ready && s.wg == 0)
  }

  lemma {:induction false} UnreleasedUpdate(rows: seq<Row>, ss: seq<Source>, i: nat, src: Source)
    requires |rows| == |ss| && i < |ss|
    ensures Unreleased(rows, ss[i := src]) == Unreleased(rows, ss)
         + (if rows[i].enabled && src.done == 0 then 1 else 0) - (if rows[i].enabled && ss[i].done == 0 then 1 else 0)
  {
    var last := |ss| - 1;
    if i < last {
      UnreleasedUpdate(rows[..last], ss[..last], i, src);
      assert ss[i := src][..last] == ss[..last][i := src];
    } else {
      assert ss[i := src][..last] == ss[..last];
    }
  }

  /** Nobody is left exactly when every enabled source has released. */
  lemma {:induction false} NoneUnreleased(rows: seq<Row>, ss: seq<Source>)
    requires |rows| == |ss|
    ensures Unreleased(rows, ss) == 0 <==> forall i :: 0 <= i < |ss| && rows[i].enabled ==> ss[i].done > 0
  {
    if ss != [] {
      var last := |ss| - 1;
      NoneUnreleased(rows[..last], ss[..last]);
      assert forall i :: 0 <= i < last ==> rows[..last][i] == rows[i] && ss[..last][i] == ss[i];
    }
  }

  lemma {:induction false} UnreleasedLaunched(rows: seq<Row>, ss: seq<Source>)
    requires |rows| == |ss|
    ensures Unreleased(rows, Launched(rows, ss)) == Unreleased(rows, ss)
  {
    if ss != [] {
      var last := |ss| - 1;
      UnreleasedLaunched(rows[..last], ss[..last]);
      assert Launched(rows, ss)[..last] == Launched(rows[..last], ss[..last]);
    }
  }

  lemma MoveKeepsInv(row: Row, max: nat, cancelled: bool, s: Source, m: Move)
    requires max >= 1 && SourceInv(row, max, cancelled, s) && Moved(row, max, cancelled, s, m).Some?
    ensures var t := Moved(row, max, cancelled, s, m).value;
            && SourceInv(row, max, cancelled, t)
            && row.enabled && s.phase != Off && t.phase != Off && s.done <= t.done <= 1
            && (s.bootstrap == Succeeded ==> t.bootstrap == Succeeded)
            && (s.bootstrap != Pending ==> t.bootstrap != Pending)
  {
  }

  lemma StepKeepsInv(k: Config, s: Sys, i: nat, m: Move)
    requires Inv(k, s) && After(k, s, Step(i, m)).Some?
    ensures Inv(k, After(k, s, Step(i, m)).value)
  {
    hide SourceInv, Moved;
    var t := After(k, s, Step(i, m)).value;
    MoveKeepsInv(k.rows[i], Attempts(k), s.cancelled, s.sources[i], m);
    UnreleasedUpdate(k.rows, s.sources, i, t.sources[i]);
    NoneUnreleased(k.rows, s.sources);
  }

  lemma InitInv(k: Config, s: Sys)
    requires Init(k, s)
    ensures Inv(k, s)
  {
  }

  lemma CancelKeepsSource(row: Row, max: nat, cancelled: bool, s: Source)
    requires SourceInv(row, max, cancelled, s)
    ensures SourceInv(row, max, true, s)
  {
  }

  lemma StartKeepsInv(k: Config, s: Sys)
    requires Inv(k, s) && s.main == NotStarted
    ensures Inv(k, After(k, s, Start).value)
  {
    UnreleasedLaunched(k.rows, s.sources);
  }

  /** Every step keeps the invariant. */
  lemma NextKeepsInv(k: Config, s: Sys, a: Action)
    requires Inv(k, s) && After(k, s, a).Some?
    ensures Inv(k, After(k, s, a).value)
  {
    match a
    case Start => StartKeepsInv(k, s);
    case Signal =>
    case Cancel =>
      forall i | 0 <= i < |k.rows| { CancelKeepsSource(k.rows[i], Attempts(k), s.cancelled, s.sources[i]); }
    case Step(i, m) => StepKeepsInv(k, s, i, m);
  }

  /** Every state of every run satisfies the invariant. */
  lemma {:induction false} RunKeepsInv(k: Config, run: seq<Sys>, i: nat)
    requires Run(k, run) && i < |run|
    ensures Inv(k, run[i])
  {
    if i == 0 {
      InitInv(k, run[0]);
    } else {
      RunKeepsInv(k, run, i - 1);
      var a :| After(k, run[i - 1], a) == Some(run[i - 1 + 1]);
      NextKeepsInv(k, run[i - 1], a);
    }
  }

  // ----- what every run guarantees

  /** `t` is no less far than `s`: ready stays closed, success is absorbing, a release is kept. */
  ghost predicate Forward(s: Sys, t: Sys) {
    && |s.sources| == |t.sources| && (s.ready ==> t.ready) && (s.cancelled ==> t.cancelled)
    && forall i :: 0 <= i < |s.sources| ==>
         && (s.sources[i].bootstrap == Succeeded ==> t.sources[i].bootstrap == Succeeded)
         && (s.sources[i].bootstrap != Pending ==> t.sources[i].bootstrap != Pending)
         && s.sources[i].done <= t.sources[i].done && s.sources[i].fetches <= t.sources[i].fetches
  }

  lemma NextIsForward(k: Config, s: Sys, a: Action)
    requires Inv(k, s) && After(k, s, a).Some?
    ensures Forward(s, After(k, s, a).value)
  {
    if a.Step? {
      MoveKeepsInv(k.rows[a.i], Attempts(k), s.cancelled, s.sources[a.i], a.move);
    }
  }

  lemma {:induction false} RunIsForward(k: Config, run: seq<Sys>, i: nat, j: nat)
    requires Run(k, run) && i <= j < |run|
    ensures Forward(run[i], run[j])
    decreases j
  {
    hide After, Inv, Forward, Init;
    if i < j {
      RunIsForward(k, run, i, j - 1);
      RunKeepsInv(k, run, j - 1);
      var a :| After(k, run[j - 1], a) == Some(run[j - 1 + 1]);
      NextIsForward(k, run[j - 1], a);
      ForwardTransitive(run[i], run[j - 1], run[j]);
    } else {
      ForwardItself(run[i]);
    }
  }

  lemma ForwardItself(s: Sys)
    ensures Forward(s, s)
  {
  }

  lemma ForwardTransitive(s: Sys, t: Sys, u: Sys)
    requires Forward(s, t) && Forward(t, u)
    ensures Forward(s, u)
  {
  }

  /** Each goroutine releases the wait-group at most once, exactly once by the time it serves
      ticks or has exited, and the count never goes negative. */
  lemma ReleasedOnce(k: Config, run: seq<Sys>, j: nat, i: nat)
    requires Run(k, run) && j < |run| && i < |k.rows|
    ensures var s := run[j];
            && i < |s.sources| && s.sources[i].done <= 1 && s.wg >= 0
            && (k.rows[i].enabled && s.sources[i].phase in {Steady, Ticking, Promote, Exited} ==>
               s.sources[i].done == 1)
            && (s.sources[i].done == 1 ==> s.sources[i].phase in {Steady, Ticking, Promote, Exited})
  {
    RunKeepsInv(k, run, j);
    assert SourceInv(k.rows[i], Attempts(k), run[j].cancelled, run[j].sources[i]);
  }

  /** Ready is closed only after every enabled source has released. */
  lemma ReadyMeansReleased(k: Config, run: seq<Sys>, j: nat)
    requires Run(k, run) && j < |run| && run[j].ready
    ensures |run[j].sources| == |k.rows|
            && forall i :: 0 <= i < |k.rows| && k.rows[i].enabled ==> run[j].sources[i].done == 1
  {
    RunKeepsInv(k, run, j);
    NoneUnreleased(k.rows, run[j].sources);
    forall i | 0 <= i < |k.rows| && k.rows[i].enabled ensures run[j].sources[i].done == 1 {
      ReleasedOnce(k, run, j, i);
    }
  }

  /** Up to state `j`, the goroutine of source `i` has left its bootstrap on a cancellation. */
  ghost predicate Left(run: seq<Sys>, j: nat, i: nat)
    requires j < |run|
  {
    exists t: nat :: t <= j && i < |run[t].sources| && run[t].sources[i].phase == Leaving
  }

  lemma LeftStep(run: seq<Sys>, j: nat, i: nat)
    requires 0 < j < |run| && i < |run[j].sources|
    ensures Left(run, j, i) <==> Left(run, j - 1, i) || run[j].sources[i].phase == Leaving
  {
  }

  /** Whoever has left or exited and is still pending stays so, and nobody else gets there. */
  lemma StepKeepsLeft(k: Config, s: Sys, a: Action, i: nat)
    requires Inv(k, s) && After(k, s, a).Some? && i < |k.rows|
    ensures var t := After(k, s, a).value;
            && i < |t.sources|
            && (Gone(t.sources[i]) <==> Gone(s.sources[i]) || t.sources[i].phase == Leaving)
  {
    assert SourceInv(k.rows[i], Attempts(k), s.cancelled, s.sources[i]);
    hide Unreleased;
  }

  predicate Gone(s: Source) { s.phase in {Leaving, Exited} && s.bootstrap == Pending }

  lemma {:induction false} GoneMeansLeft(k: Config, run: seq<Sys>, j: nat, i: nat)
    requires Run(k, run) && j < |run| && i < |k.rows|
    ensures i < |run[j].sources| && (Gone(run[j].sources[i]) <==> Left(run, j, i))
  {
    hide After, Inv, Gone;
    RunKeepsInv(k, run, j);
    if j == 0 {
      StartsOff(k, run[0], i);
    } else {
      GoneMeansLeft(k, run, j - 1, i);
      RunKeepsInv(k, run, j - 1);
      var a :| After(k, run[j - 1], a) == Some(run[j - 1 + 1]);
      StepKeepsLeft(k, run[j - 1], a, i);
      LeftStep(run, j, i);
    }
  }

  lemma StartsOff(k: Config, s: Sys, i: nat)
    requires Init(k, s) && i < |k.rows|
    ensures i < |s.sources| && s.sources[i].phase == Off && !Gone(s.sources[i])
  {
  }

  /** Exactly: with ready closed, an enabled source is still pending if and only if its goroutine left
      the bootstrap because it saw the cancellation before it had a result. */
  lemma PendingExactly(k: Config, run: seq<Sys>, j: nat, i: nat)
    requires Run(k, run) && j < |run| && run[j].ready && i < |k.rows| && k.rows[i].enabled
    ensures i < |run[j].sources| && (run[j].sources[i].bootstrap == Pending <==> Left(run, j, i))
  {
    RunKeepsInv(k, run, j);
    ReadyMeansReleased(k, run, j);
    GoneMeansLeft(k, run, j, i);
    assert SourceInv(k.rows[i], Attempts(k), run[j].cancelled, run[j].sources[i]);
  }

  /** Ready before cancelled means terminal for good: a shutdown after a complete start leaves no
      enabled source pending. */
  lemma ReadyMeansTerminal(k: Config, run: seq<Sys>, r: nat, j: nat, i: nat)
    requires Run(k, run) && r <= j < |run| && i < |k.rows| && k.rows[i].enabled
    requires run[r].ready && !run[r].cancelled
    ensures i < |run[j].sources| && run[j].sources[i].bootstrap != Pending
  {
    RunKeepsInv(k, run, r);
    PendingExactly(k, run, r, i);
    if t: nat :| t <= r && i < |run[t].sources| && run[t].sources[i].phase == Leaving {
      RunKeepsInv(k, run, t);
      assert SourceInv(k.rows[i], Attempts(k), run[t].cancelled, run[t].sources[i]);
      RunIsForward(k, run, t, r);
    }
    RunIsForward(k, run, r, j);
  }

  /** Up to state `j`, source `i` has been in its attempt `n`. */
  ghost predicate Tried(run: seq<Sys>, j: nat, i: nat, n: nat)
    requires j < |run|
  {
    exists t: nat :: t <= j && i < |run[t].sources| && run[t].sources[i].phase == Refreshing(n)
  }

  ghost predicate TriedUpTo(run: seq<Sys>, j: nat, i: nat, n: int)
    requires j < |run|
  {
    forall m: nat :: 1 <= m <= n ==> Tried(run, j, i, m)
  }

  /** How many attempts a source must have behind it or be in. */
  function Begun(max: nat, s: Source): (n: int) {
    match s.phase
    case Loop(n) => n as int - 1
    case Refreshing(n) => n as int
    case Waiting(n) => n as int
    case MarkFail => max
    case _ => if s.bootstrap == Failed then max else 0
  }

  /** A step begins at most the next attempt. */
  lemma StepBegins(k: Config, s: Sys, a: Action, i: nat)
    requires Inv(k, s) && After(k, s, a).Some? && i < |k.rows|
    ensures var t := After(k, s, a).value;
            && i < |t.sources|
            && (Begun(Attempts(k), t.sources[i]) <= Begun(Attempts(k), s.sources[i])
                || (t.sources[i].phase == Refreshing(Begun(Attempts(k), t.sources[i]))
                    && Begun(Attempts(k), t.sources[i]) == Begun(Attempts(k), s.sources[i]) + 1))
  {
    assert SourceInv(k.rows[i], Attempts(k), s.cancelled, s.sources[i]);
    hide Unreleased;
  }

  lemma TriedStays(run: seq<Sys>, j: nat, i: nat, n: nat)
    requires 0 < j < |run| && Tried(run, j - 1, i, n)
    ensures Tried(run, j, i, n)
  {
  }

  lemma {:induction false} BegunIsTried(k: Config, run: seq<Sys>, j: nat, i: nat)
    requires Run(k, run) && j < |run| && i < |k.rows|
    ensures i < |run[j].sources| && TriedUpTo(run, j, i, Begun(Attempts(k), run[j].sources[i]))
  {
    hide After, Inv, Begun, Tried;
    RunKeepsInv(k, run, j);
    if j == 0 {
      StartsOff(k, run[0], i);
      NothingBegun(k, run[0], i);
    } else {
      BegunIsTried(k, run, j - 1, i);
      RunKeepsInv(k, run, j - 1);
      var a :| After(k, run[j - 1], a) == Some(run[j - 1 + 1]);
      StepBegins(k, run[j - 1], a, i);
      var n := Begun(Attempts(k), run[j].sources[i]);
      forall m: nat | 1 <= m <= n ensures Tried(run, j, i, m) {
        if m <= Begun(Attempts(k), run[j - 1].sources[i]) {
          TriedStays(run, j, i, m);
        } else {
          TriesNow(run, j, i, m);
        }
      }
    }
  }

  lemma TriesNow(run: seq<Sys>, j: nat, i: nat, n: nat)
    requires j < |run| && i < |run[j].sources| && run[j].sources[i].phase == Refreshing(n)
    ensures Tried(run, j, i, n)
  {
  }

  lemma NothingBegun(k: Config, s: Sys, i: nat)
    requires Init(k, s) && i < |k.rows|
    ensures i < |s.sources| && Begun(Attempts(k), s.sources[i]) <= 0
  {
  }

  /** No source fails early: one that has failed has been through every attempt from the first to the
      configured last. */
  lemma FailedMeansExhausted(k: Config, run: seq<Sys>, j: nat, i: nat, n: nat)
    requires Run(k, run) && j < |run| && i < |k.rows| && i < |run[j].sources|
             && run[j].sources[i].bootstrap == Failed
    requires 1 <= n <= if k.maxAttempts < 1 then 1 else k.maxAttempts
    ensures Tried(run, j, i, n)
  {
    hide Tried;
    BegunIsTried(k, run, j, i);
    RunKeepsInv(k, run, j);
    assert SourceInv(k.rows[i], Attempts(k), run[j].cancelled, run[j].sources[i]);
  }

  /** What a mark leaves behind: failed after the last attempt, succeeded otherwise, be it the first success
      or a tick's. */
  lemma MarkExactly(k: Config, s: Sys, i: nat)
    requires Inv(k, s) && i < |s.sources| && After(k, s, Step(i, Mark)).Some?
    ensures var b := After(k, s, Step(i, Mark)).value.sources[i].bootstrap;
            b == if s.sources[i].phase == MarkFail then Failed else Succeeded
  {
    assert SourceInv(k.rows[i], Attempts(k), s.cancelled, s.sources[i]);
  }

  /** A source that never refreshes fetches at most max(1, maxAttempts) times in a process. */
  lemma NeverRefreshBound(k: Config, run: seq<Sys>, j: nat, i: nat)
    requires Run(k, run) && j < |run| && i < |k.rows| && !k.rows[i].refreshing
    ensures i < |run[j].sources| && run[j].sources[i].fetches <= if k.maxAttempts < 1 then 1 else k.maxAttempts
  {
    RunKeepsInv(k, run, j);
    assert SourceInv(k.rows[i], Attempts(k), run[j].cancelled, run[j].sources[i]);
  }

  // ----- the bootstrap ends

  /** The steps a source has left at most before it releases the wait-group. */
  function Budget(max: nat, s: Source): (n: int) {
    match s.phase
    case Loop(n) => 3 * (max - n) + 4
    case Refreshing(n) => 3 * (max - n) + 3
    case Waiting(n) => 3 * (max - n) + 2
    case MarkOk => 2
    case MarkFail => 2
    case Release => 1
    case Leaving => 1
    case _ => 0
  }

  /** Whatever a fetch brings and whenever a cancellation is seen, a step brings the release nearer; and
      until the release there is a step to take. */
  lemma MoveSpends(row: Row, max: nat, cancelled: bool, s: Source)
    requires max >= 1 && SourceInv(row, max, cancelled, s)
    ensures forall m :: s.done == 0 && Moved(row, max, cancelled, s, m).Some? ==>
              Budget(max, Moved(row, max, cancelled, s, m).value) < Budget(max, s)
    ensures s.done == 0 && s.phase != Off ==> exists m :: Moved(row, max, cancelled, s, m).Some?
    ensures Budget(max, s) >= 0
  {
    if s.done == 0 && s.phase != Off {
      var m := match s.phase
        case Loop(_) => if cancelled then SeeCancel else Attempt(true)
        case Refreshing(_) => Ok
        case Waiting(_) => DelayOver
        case MarkOk => Mark
        case MarkFail => Mark
        case _ => Done;
      assert Moved(row, max, cancelled, s, m).Some?;
    }
  }

  /** In this step source `i` moves on in its bootstrap. */
  ghost predicate Moves(s: Sys, t: Sys, i: nat) {
    && i < |s.sources| && i < |t.sources| && s.sources[i] != t.sources[i]
    && s.sources[i].phase != Off && s.sources[i].done == 0
  }

  /** How often source `i` has moved on in its bootstrap up to state `j`. */
  ghost function MovesOf(run: seq<Sys>, j: nat, i: nat): (n: nat)
    requires j < |run|
  {
    if j == 0 then 0 else MovesOf(run, j - 1, i) + (if Moves(run[j - 1], run[j], i) then 1 else 0)
  }

  /** A step spends from the budget of the source that moves and starts nobody twice. */
  lemma StepSpends(k: Config, s: Sys, t: Sys, a: Action, i: nat)
    requires Inv(k, s) && After(k, s, a) == Some(t) && i < |k.rows|
    ensures var max := Attempts(k);
            && i < |s.sources| && i < |t.sources| && 0 <= Budget(max, t.sources[i])
            && (if s.sources[i].phase == Off then Budget(max, t.sources[i]) <= 3 * max + 1
                else Budget(max, t.sources[i]) + (if Moves(s, t, i) then 1 else 0) <= Budget(max, s.sources[i])
                     && t.sources[i].phase != Off)
  {
    hide Unreleased;
    assert SourceInv(k.rows[i], Attempts(k), s.cancelled, s.sources[i]);
    MoveSpends(k.rows[i], Attempts(k), s.cancelled, s.sources[i]);
  }

  lemma {:induction false} MovesSpend(k: Config, run: seq<Sys>, j: nat, i: nat)
    requires Run(k, run) && j < |run| && i < |k.rows|
    ensures i < |run[j].sources| && MovesOf(run, j, i) + Budget(Attempts(k), run[j].sources[i]) <= 3 * Attempts(k) + 1
    ensures run[j].sources[i].phase == Off ==> MovesOf(run, j, i) == 0
    ensures 0 <= Budget(Attempts(k), run[j].sources[i])
  {
    hide After, Inv, Budget, Moves, SourceInv;
    RunKeepsInv(k, run, j);
    if j == 0 {
      StartsOff(k, run[0], i);
      NothingSpent(Attempts(k), run[0].sources[i]);
    } else {
      MovesSpend(k, run, j - 1, i);
      RunKeepsInv(k, run, j - 1);
      var a :| After(k, run[j - 1], a) == Some(run[j - 1 + 1]);
      StepSpends(k, run[j - 1], run[j], a, i);
      if run[j - 1].sources[i].phase == Off { OffRests(run[j - 1], run[j], i); }
    }
  }

  lemma NothingSpent(max: nat, s: Source)
    requires s.phase == Off
    ensures Budget(max, s) == 0
  {
  }

  lemma OffRests(s: Sys, t: Sys, i: nat)
    requires i < |s.sources| && s.sources[i].phase == Off
    ensures !Moves(s, t, i)
  {
  }

  /** Every bootstrap ends, whatever its fetches bring: a source takes at most three steps per attempt and one
      more before it releases the wait-group. */
  lemma BootstrapIsBounded(k: Config, run: seq<Sys>, j: nat, i: nat)
    requires Run(k, run) && j < |run| && i < |k.rows|
    ensures MovesOf(run, j, i) <= 3 * (if k.maxAttempts < 1 then 1 else k.maxAttempts) + 1
  {
    MovesSpend(k, run, j, i);
  }

  /** And no start is ever stuck: while it is blocked, ready can be closed or a source that has not released
      can move on. */
  lemma NeverStuck(k: Config, run: seq<Sys>, j: nat)
    requires Run(k, run) && j < |run| && run[j].main == Blocked
    ensures || After(k, run[j], Signal) == Some(run[j].(main := Returned, ready := true))
            || exists i: nat, m ::
                 && i < |k.rows| && k.rows[i].enabled && i < |run[j].sources| && run[j].sources[i].done == 0
                 && After(k, run[j], Step(i, m)).Some?
  {
    hide SourceInv, Moved, Unreleased;
    RunKeepsInv(k, run, j);
    var s := run[j];
    NoneUnreleased(k.rows, s.sources);
    if s.wg != 0 {
      var i :| 0 <= i < |k.rows| && k.rows[i].enabled && s.sources[i].done == 0;
      MoveSpends(k.rows[i], Attempts(k), s.cancelled, s.sources[i]);
      var m :| Moved(k.rows[i], Attempts(k), s.cancelled, s.sources[i], m).Some?;
      assert After(k, s, Step(i, m)).Some?;
    }
  }

  // ----- shutdown

  /** How many steps of its own a source needs to exit once it is cancelled. */
  function ToExit(s: Source): (n: nat) {
    match s.phase
    case Refreshing(_) => 4
    case MarkOk => 3
    case MarkFail => 3
    case Off => 0
    case Exited => 0
    case Steady => 1
    case Leaving => 1
    case _ => 2
  }

  lemma ExitNears(row: Row, max: nat, s: Source) returns (m: Move)
    requires SourceInv(row, max, true, s) && s.phase != Off && s.phase != Exited
    ensures Moved(row, max, true, s, m).Some? && ToExit(Moved(row, max, true, s, m).value) < ToExit(s)
  {
    m := match s.phase
      case Refreshing(_) => Ok
      case Ticking => Err
      case MarkOk => Mark
      case MarkFail => Mark
      case Promote => Mark
      case Release => Done
      case Leaving => Done
      case _ => SeeCancel;
  }

  lemma RunStarts(k: Config, run: seq<Sys>)
    requires Run(k, run)
    ensures run != []
  {
  }

  /** A cancelled source that was launched can always exit, by itself and within four steps: no wait, no
      attempt and no tick holds it longer than the fetch it is in. */
  lemma {:induction false} ExitIsNear(k: Config, run: seq<Sys>, i: nat) returns (more: seq<Sys>)
    requires Run(k, run) && run[|run| - 1].cancelled && i < |k.rows|
    requires i < |run[|run| - 1].sources| && run[|run| - 1].sources[i].phase != Off
    ensures Run(k, run + more) && |more| <= ToExit(run[|run| - 1].sources[i]) <= 4
    ensures var t := (run + more)[|run + more| - 1]; i < |t.sources| && t.sources[i].phase == Exited
    decreases ToExit(run[|run| - 1].sources[i])
  {
    hide Run, Moved, SourceInv, Unreleased;
    RunStarts(k, run);
    var s := run[|run| - 1];
    if s.sources[i].phase == Exited {
      more := [];
      assert run + more == run;
    } else {
      RunKeepsInv(k, run, |run| - 1);
      var m := ExitNears(k.rows[i], Attempts(k), s.sources[i]);
      var t := After(k, s, Step(i, m)).value;
      MoveKeepsInv(k.rows[i], Attempts(k), true, s.sources[i], m);
      RunGrows(k, run, Step(i, m), t);
      more := ExitIsNear(k, run + [t], i);
      assert run + ([t] + more) == run + [t] + more;
      more := [t] + more;
    }
  }

  // ----- the gate

  datatype Answer = WarmingUp | BootstrapFailed | Serve

  function Rank(a: Answer): (n: nat) { match a case WarmingUp => 0 case BootstrapFailed => 1 case Serve => 2 }

  /** `AllSucceeded` */
  ghost predicate AllSucceeded(k: Config, s: Sys)
    requires |s.sources| == |k.rows|
  {
    forall i :: 0 <= i < |k.rows| && k.rows[i].enabled ==> s.sources[i].bootstrap == Succeeded
  }

  /** A request that polls the ready signal in state `s` and, if it is closed, the sources in
      state `t`. */
  ghost function Gate(k: Config, s: Sys, t: Sys): (a: Answer)
    requires |t.sources| == |k.rows|
  {
    if !s.ready then WarmingUp else if !AllSucceeded(k, t) then BootstrapFailed else Serve
  }

  /** The loop of `AllSucceeded`. */
  method CheckAllSucceeded(k: Config, s: Sys) returns (ok: bool)
    requires |s.sources| == |k.rows|
    ensures ok <==> AllSucceeded(k, s)
  {
    for i := 0 to |k.rows|
      invariant forall j :: 0 <= j < i && k.rows[j].enabled ==> s.sources[j].bootstrap == Succeeded
    {
      if !k.rows[i].enabled { continue; }
      if s.sources[i].bootstrap != Succeeded { return false; }
    }
    return true;
  }

  /** Over every run, a request that starts after another one has been answered gets an answer
      no less far: warming up, then failed, then serve. */
  lemma GateOnlyMovesForward(k: Config, run: seq<Sys>, i1: nat, i2: nat, j1: nat, j2: nat)
    requires Run(k, run) && i1 <= i2 <= j1 <= j2 < |run|
    ensures |run[i2].sources| == |run[j2].sources| == |k.rows|
    ensures Rank(Gate(k, run[i1], run[i2])) <= Rank(Gate(k, run[j1], run[j2]))
  {
    RunKeepsInv(k, run, i2);
    RunKeepsInv(k, run, j2);
    RunIsForward(k, run, i1, j1);
    RunIsForward(k, run, i2, j2);
  }

  /** The gate answers failed exactly when ready is closed and some enabled source has exhausted its
      attempts with no tick recovering it, or left its bootstrap on a cancellation. */
  lemma GateMeaning(k: Config, run: seq<Sys>, j: nat)
    requires Run(k, run) && j < |run|
    ensures |run[j].sources| == |k.rows|
    ensures Gate(k, run[j], run[j]) == WarmingUp <==> !run[j].ready
    ensures Gate(k, run[j], run[j]) == Serve <==>
            run[j].ready && forall i: nat :: i < |k.rows| && k.rows[i].enabled ==>
                                               run[j].sources[i].bootstrap == Succeeded
    ensures Gate(k, run[j], run[j]) == BootstrapFailed <==>
            run[j].ready && exists i: nat :: i < |k.rows| && k.rows[i].enabled &&
                              (run[j].sources[i].bootstrap == Failed || Left(run, j, i))
  {
    RunKeepsInv(k, run, j);
    if run[j].ready {
      forall i: nat | i < |k.rows| && k.rows[i].enabled
        ensures run[j].sources[i].bootstrap == Pending <==> Left(run, j, i)
      {
        PendingExactly(k, run, j, i);
      }
    }
  }

  // ----- a cancelled start

  /** All sources launched; of the enabled ones the first `n` have left and exited. */
  function Exiting(rows: seq<Row>, n: nat): (ss: seq<Source>)
    ensures |ss| == |rows|
  {
    seq(|rows|, i requires 0 <= i < |rows| =>
      if !rows[i].enabled then Source(Off, Succeeded, 0, 0)
      else if i < n then Source(Exited, Pending, 1, 0) else Source(Loop(1), Pending, 0, 0))
  }

  /** The state of the cancelled start at that point. */
  function Cancelled(k: Config, n: nat): (s: Sys) {
    Sys(Exiting(k.rows, n), Blocked, Unreleased(k.rows, Exiting(k.rows, n)), false, true)
  }

  /** `run` and one more state. */
  lemma RunGrows(k: Config, run: seq<Sys>, a: Action, t: Sys)
    requires Run(k, run) && After(k, run[|run| - 1], a) == Some(t)
    ensures Run(k, run + [t])
  {
    hide After, Init;
    var r := run + [t];
    forall i | 0 <= i < |r| - 1 ensures Next(k, r[i], r[i + 1]) {
      if i < |run| - 1 { assert Next(k, run[i], run[i + 1]); }
    }
  }

  /** A start that is cancelled before any source has loaded anything. */
  lemma CancelAtOnce(k: Config, i: nat) returns (run: seq<Sys>)
    requires i < |k.rows| && k.rows[i].enabled
    ensures Run(k, run) && run[|run| - 1] == Cancelled(k, 0)
  {
    hide Unreleased, Launched;
    var s := Sys(seq(|k.rows|, j requires 0 <= j < |k.rows| =>
                   Source(Off, if k.rows[j].enabled then Pending else Succeeded, 0, 0)), NotStarted, 0, false, false);
    var ss := Exiting(k.rows, 0);
    NoneUnreleased(k.rows, s.sources);
    UnreleasedLaunched(k.rows, s.sources);
    assert Launched(k.rows, s.sources) == ss by { LaunchedAt(k.rows, s.sources); }
    var t := Sys(ss, Blocked, Unreleased(k.rows, ss), false, false);
    assert s.sources[i].done == 0;
    assert After(k, s, Start) == Some(t);
    assert Run(k, [s]);
    RunGrows(k, [s], Start, t);
    assert After(k, t, Cancel) == Some(Cancelled(k, 0));
    RunGrows(k, [s] + [t], Cancel, Cancelled(k, 0));
    run := [s] + [t] + [Cancelled(k, 0)];
  }

  lemma LaunchedAt(rows: seq<Row>, ss: seq<Source>)
    requires |rows| == |ss|
    ensures forall i :: 0 <= i < |ss| ==>
              Launched(rows, ss)[i] == if rows[i].enabled then ss[i].(phase := Loop(1)) else ss[i]
  {
  }

  /** The next source sees the cancellation, returns, and releases the wait-group. */
  lemma OneExits(k: Config, run: seq<Sys>, n: nat) returns (more: seq<Sys>)
    requires n < |k.rows| && Run(k, run) && run[|run| - 1] == Cancelled(k, n)
    ensures Run(k, more) && more[|more| - 1] == Cancelled(k, n + 1)
  {
    hide Unreleased, Run;
    var s, ss, next := Cancelled(k, n), Exiting(k.rows, n), Exiting(k.rows, n + 1);
    if !k.rows[n].enabled {
      assert ss == next;
      more := run;
    } else {
      var mid := s.(sources := ss[n := Source(Leaving, Pending, 0, 0)]);
      assert next == mid.sources[n := Source(Exited, Pending, 1, 0)] == ss[n := Source(Exited, Pending, 1, 0)];
      UnreleasedUpdate(k.rows, ss, n, Source(Exited, Pending, 1, 0));
      assert After(k, s, Step(n, SeeCancel)) == Some(mid);
      assert After(k, mid, Step(n, Done)) == Some(Cancelled(k, n + 1));
      RunGrows(k, run, Step(n, SeeCancel), mid);
      RunGrows(k, run + [mid], Step(n, Done), Cancelled(k, n + 1));
      more := run + [mid] + [Cancelled(k, n + 1)];
    }
  }

  lemma {:induction false} AllExit(k: Config, i: nat, n: nat) returns (run: seq<Sys>)
    requires i < |k.rows| && k.rows[i].enabled && n <= |k.rows|
    ensures Run(k, run) && run[|run| - 1] == Cancelled(k, n)
  {
    hide Run;
    if n == 0 {
      run := CancelAtOnce(k, i);
    } else {
      run := AllExit(k, i, n - 1);
      run := OneExits(k, run, n - 1);
    }
  }

  /** Ready is closed and every enabled source is pending. */
  ghost predicate Stranded(k: Config, s: Sys) {
    && s.ready && |s.sources| == |k.rows|
    && forall i :: 0 <= i < |k.rows| && k.rows[i].enabled ==> s.sources[i].bootstrap == Pending
  }

  /** Whatever the configuration, a cancelled start can end with ready closed and every enabled source
      still pending. */
  lemma CancelCanLeavePending(k: Config, i: nat)
    requires i < |k.rows| && k.rows[i].enabled
    ensures exists run: seq<Sys> :: Run(k, run) && Stranded(k, run[|run| - 1])
  {
    hide Run, Unreleased;
    var n := |k.rows|;
    var run := AllExit(k, i, n);
    var s := Cancelled(k, n);
    NoneUnreleased(k.rows, s.sources);
    var t := s.(main := Returned, ready := true);
    assert After(k, s, Signal) == Some(t);
    RunGrows(k, run, Signal, t);
    assert Stranded(k, (run + [t])[|run + [t]| - 1]);
  }
}
