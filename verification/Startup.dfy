/** The coordinator and the cache together: what the gate's answers mean for the payloads that are
    there to be merged. */
module Startup {
  import opened Yaml
  import opened FetchCache
  import C = Coordinator
  import P = Pipeline
  import B = BuildLaws
  import T = TableLaws

  /** A refresh that a goroutine is in since `began`: it found a fresh entry, or it is fetching. */
  datatype Call = Unneeded(began: int) | Fetching(began: int)

  /** The coordinator, the clock, and each source's cache entry and refresh. */
  datatype State = State(sys: C.Sys, now: int, entries: seq<Option<Entry>>, calls: seq<Option<Call>>)

  /** `timings` holds the ttl, window and persistence that the refreshes of each source use. */
  datatype Plan = Plan(coord: C.Config, timings: seq<Timing>)

  datatype Step = Pass(d: nat) | Global(a: C.Action) | Begin(i: nat) | Finish(i: nat, o: Outcome)
                | Local(i: nat, m: C.Move)

  ghost predicate Sized(p: Plan, s: State) {
    |s.sys.sources| == |p.coord.rows| == |p.timings| == |s.entries| == |s.calls|
  }

  /** Moves that leave the cache alone. */
  predicate Silent(m: C.Move) { m in {C.SeeCancel, C.DelayOver, C.Mark, C.Done} }

  datatype Landing = Landing(entry: Option<Entry>, ok: bool)

  /** A refresh comes back; a ticker's failure may drop the entry. */
  function Landed(t: Timing, e: Option<Entry>, call: Call, ticking: bool, now: int, o: Outcome): (l: Landing) {
    if call.Unneeded? then Landing(e, true) else
      var r := Refreshed(e, t.ttl, call.began, now, t.persistent, o);
      Landing(if r.error.Some? && ticking && ShouldDrop(r.entry, t.window, now) then None else r.entry, r.error.None?)
  }

  /** Goroutine `i` makes move `m`, with this entry and refresh afterwards. */
  ghost function Moved(p: Plan, s: State, i: nat, m: C.Move, e: Option<Entry>, call: Option<Call>): (r: Option<State>)
    requires Sized(p, s) && i < |s.calls|
  {
    match C.After(p.coord, s.sys, C.Step(i, m))
    case None => None
    case Some(sys) => Some(s.(sys := sys, entries := s.entries[i := e], calls := s.calls[i := call]))
  }

  ghost function After(p: Plan, s: State, a: Step): (r: Option<State>) {
    if !Sized(p, s) then None else
      match a
      case Pass(d) => Some(s.(now := s.now + d))
      case Global(g) =>
        if g.Step? then None else
          (match C.After(p.coord, s.sys, g) case None => None case Some(sys) => Some(s.(sys := sys)))
      case Begin(i) =>
        if i >= |s.calls| || s.calls[i].Some? then None else
          var due := StateOf(s.entries[i], p.timings[i].ttl, s.now) != Fresh;
          var move := if s.sys.sources[i].phase.Steady? then C.Tick(due) else C.Attempt(due);
          Moved(p, s, i, move, s.entries[i], Some(if due then Fetching(s.now) else Unneeded(s.now)))
      case Finish(i, o) =>
        if i >= |s.calls| || s.calls[i].None? then None else
          var l := Landed(p.timings[i], s.entries[i], s.calls[i].value, s.sys.sources[i].phase.Ticking?, s.now, o);
          Moved(p, s, i, if l.ok then C.Ok else C.Err, l.entry, None)
      case Local(i, m) =>
        if i >= |s.calls| || !Silent(m) then None else Moved(p, s, i, m, s.entries[i], s.calls[i])
  }

  /** The cache may hold what was loaded from disk. */
  ghost predicate Init(p: Plan, s: State) {
    Sized(p, s) && C.Init(p.coord, s.sys) && forall i :: 0 <= i < |s.calls| ==> s.calls[i] == None
  }

  ghost predicate Next(p: Plan, s: State, t: State) { exists a :: After(p, s, a) == Some(t) }

  ghost predicate Run(p: Plan, run: seq<State>) {
    && run != [] && Init(p, run[0])
    && forall i :: 0 <= i < |run| - 1 ==> Next(p, run[i], run[i + 1])
  }

  // ----- the invariant

  predicate Has(e: Option<Entry>) { PayloadOf(e).Some? }

  ghost predicate SourceOk(t: Timing, phase: C.Phase, e: Option<Entry>, call: Option<Call>) {
    && (call.Some? <==> phase.Refreshing? || phase.Ticking?)
    && (call.Some? ==> (call.value.Unneeded? <==> StateOf(e, t.ttl, call.value.began) == Fresh))
    && (phase.MarkOk? || phase.Promote? ==> Has(e))
  }

  ghost predicate Inv(p: Plan, s: State) {
    && Sized(p, s) && C.Inv(p.coord, s.sys)
    && forall i :: 0 <= i < |s.calls| ==> SourceOk(p.timings[i], s.sys.sources[i].phase, s.entries[i], s.calls[i])
  }

  /** What the coordinator does in one step, if anything. */
  lemma StepOfSys(p: Plan, s: State, a: Step)
    requires Inv(p, s) && After(p, s, a).Some?
    ensures var t := After(p, s, a).value;
            t.sys == s.sys || exists g :: C.After(p.coord, s.sys, g) == Some(t.sys)
  {
    hide C.Inv, SourceOk, Landed;
  }

  lemma SysKeepsInv(p: Plan, s: State, a: Step)
    requires Inv(p, s) && After(p, s, a).Some?
    ensures var t := After(p, s, a).value; C.Inv(p.coord, t.sys) && C.Forward(s.sys, t.sys)
  {
    hide C.Inv, C.After, C.Forward, SourceOk, Landed;
    var t := After(p, s, a).value;
    StepOfSys(p, s, a);
    if t.sys == s.sys {
      C.ForwardItself(s.sys);
    } else {
      var g :| C.After(p.coord, s.sys, g) == Some(t.sys);
      C.NextKeepsInv(p.coord, s.sys, g);
      C.NextIsForward(p.coord, s.sys, g);
    }
  }

  lemma LandedLaw(t: Timing, e: Option<Entry>, call: Call, ticking: bool, now: int, o: Outcome)
    requires call.Unneeded? ==> Has(e)
    ensures var l := Landed(t, e, call, ticking, now, o); l.ok ==> Has(l.entry)
  {
  }

  /** `Start` only moves goroutines that have not begun. */
  lemma GlobalKeepsPhases(k: C.Config, s: C.Sys, g: C.Action, i: nat)
    requires C.Inv(k, s) && !g.Step? && C.After(k, s, g).Some? && i < |s.sources|
    ensures var t := C.After(k, s, g).value;
            && |t.sources| == |s.sources|
            && (t.sources[i].phase == s.sources[i].phase || (s.sources[i].phase.Off? && t.sources[i].phase.Loop?))
            && t.sources[i].bootstrap == s.sources[i].bootstrap
  {
  }

  /** What move `m` may do to the entry and the refresh of its source. */
  ghost predicate Lawful(t: Timing, m: C.Move, e: Option<Entry>, call: Option<Call>, e': Option<Entry>,
                         call': Option<Call>) {
    match m
    case Attempt(_) => BeginsWith(t, e', call')
    case Tick(_) => BeginsWith(t, e', call')
    case Ok => call' == None && Has(e')
    case Err => call' == None
    case _ => e' == e && call' == call
  }

  ghost predicate BeginsWith(t: Timing, e: Option<Entry>, call: Option<Call>) {
    call.Some? && (call.value.Unneeded? <==> StateOf(e, t.ttl, call.value.began) == Fresh)
  }

  lemma MoveKeepsOk(t: Timing, row: C.Row, max: nat, cancelled: bool, src: C.Source, m: C.Move,
                    e: Option<Entry>, call: Option<Call>, e': Option<Entry>, call': Option<Call>)
    requires SourceOk(t, src.phase, e, call) && C.Moved(row, max, cancelled, src, m).Some?
    requires Lawful(t, m, e, call, e', call')
    ensures SourceOk(t, C.Moved(row, max, cancelled, src, m).value.phase, e', call')
  {
  }

  ghost predicate SourcesOk(p: Plan, s: State) {
    && Sized(p, s)
    && forall i :: 0 <= i < |s.calls| ==> SourceOk(p.timings[i], s.sys.sources[i].phase, s.entries[i], s.calls[i])
  }

  lemma MovedKeepsOk(p: Plan, s: State, i: nat, m: C.Move, e: Option<Entry>, call: Option<Call>)
    requires SourcesOk(p, s) && i < |s.calls| && Moved(p, s, i, m, e, call).Some?
    requires Lawful(p.timings[i], m, s.entries[i], s.calls[i], e, call)
    ensures SourcesOk(p, Moved(p, s, i, m, e, call).value)
  {
    hide C.Moved, SourceOk, Lawful;
    MoveKeepsOk(p.timings[i], p.coord.rows[i], C.Attempts(p.coord), s.sys.cancelled, s.sys.sources[i], m,
                s.entries[i], s.calls[i], e, call);
  }

  lemma LaunchKeepsOk(t: Timing, from: C.Phase, to: C.Phase, e: Option<Entry>, call: Option<Call>)
    requires SourceOk(t, from, e, call) && (to == from || (from.Off? && to.Loop?))
    ensures SourceOk(t, to, e, call)
  {
  }

  lemma GlobalKeepsOk(p: Plan, s: State, g: C.Action)
    requires Inv(p, s) && After(p, s, Global(g)).Some?
    ensures SourcesOk(p, After(p, s, Global(g)).value)
  {
    hide C.Inv, SourceOk;
    forall i: nat | i < |s.calls|
      ensures var t := After(p, s, Global(g)).value;
              i < |t.sys.sources| && SourceOk(p.timings[i], t.sys.sources[i].phase, s.entries[i], s.calls[i])
    {
      GlobalKeepsPhases(p.coord, s.sys, g, i);
      LaunchKeepsOk(p.timings[i], s.sys.sources[i].phase, After(p, s, Global(g)).value.sys.sources[i].phase,
                    s.entries[i], s.calls[i]);
    }
  }

  lemma StepKeepsInv(p: Plan, s: State, a: Step)
    requires Inv(p, s) && After(p, s, a).Some?
    ensures Inv(p, After(p, s, a).value)
  {
    hide C.Inv, Landed, Moved, SourceOk;
    SysKeepsInv(p, s, a);
    match a
    case Pass(d) =>
    case Global(g) => GlobalKeepsOk(p, s, g);
    case Begin(i) =>
      var due := StateOf(s.entries[i], p.timings[i].ttl, s.now) != Fresh;
      MovedKeepsOk(p, s, i, if s.sys.sources[i].phase.Steady? then C.Tick(due) else C.Attempt(due), s.entries[i],
                   Some(if due then Fetching(s.now) else Unneeded(s.now)));
    case Finish(i, o) =>
      var l := Landed(p.timings[i], s.entries[i], s.calls[i].value, s.sys.sources[i].phase.Ticking?, s.now, o);
      UnneededHas(p, s, i);
      LandedLaw(p.timings[i], s.entries[i], s.calls[i].value, s.sys.sources[i].phase.Ticking?, s.now, o);
      MovedKeepsOk(p, s, i, if l.ok then C.Ok else C.Err, l.entry, None);
    case Local(i, m) => MovedKeepsOk(p, s, i, m, s.entries[i], s.calls[i]);
  }

  lemma UnneededHas(p: Plan, s: State, i: nat)
    requires Inv(p, s) && i < |s.calls|
    ensures s.calls[i].Some? && s.calls[i].value.Unneeded? ==> Has(s.entries[i])
  {
  }

  lemma {:induction false} RunKeepsInv(p: Plan, run: seq<State>, j: nat)
    requires Run(p, run) && j < |run|
    ensures Inv(p, run[j])
  {
    hide After, Inv;
    if j == 0 {
      StartInv(p, run[0]);
    } else {
      RunKeepsInv(p, run, j - 1);
      assert Next(p, run[j - 1], run[j - 1 + 1]);
      var a :| After(p, run[j - 1], a) == Some(run[j]);
      StepKeepsInv(p, run[j - 1], a);
    }
  }

  lemma StartInv(p: Plan, s: State)
    requires Init(p, s)
    ensures Inv(p, s)
  {
    C.InitInv(p.coord, s.sys);
  }

  /** Every execution is an execution of the coordinator as well, so all its laws hold here. */
  lemma {:induction false} Projects(p: Plan, run: seq<State>, j: nat) returns (coord: seq<C.Sys>)
    requires Run(p, run) && j < |run|
    ensures C.Run(p.coord, coord) && coord[|coord| - 1] == run[j].sys
  {
    hide After, Inv, C.After, C.Init;
    if j == 0 {
      coord := [run[0].sys];
      assert C.Init(p.coord, run[0].sys);
    } else {
      coord := Projects(p, run, j - 1);
      RunKeepsInv(p, run, j - 1);
      assert Next(p, run[j - 1], run[j - 1 + 1]);
      var a :| After(p, run[j - 1], a) == Some(run[j]);
      StepOfSys(p, run[j - 1], a);
      if run[j].sys != run[j - 1].sys {
        var g :| C.After(p.coord, run[j - 1].sys, g) == Some(run[j].sys);
        C.RunGrows(p.coord, coord, g, run[j].sys);
        coord := coord + [run[j].sys];
      }
    }
  }

  // ----- payloads

  /** The only way to lose a payload: a tick's fetch fails and the payload is past the window. */
  ghost predicate Drops(p: Plan, s: State, a: Step, i: nat)
    requires Sized(p, s) && i < |s.calls| && Has(s.entries[i])
  {
    && a.Finish? && a.i == i && a.o.FetchFailed? && s.sys.sources[i].phase.Ticking?
    && s.calls[i].Some? && s.calls[i].value.Fetching?
    && s.now - s.entries[i].value.storedAt > p.timings[i].window
  }

  lemma LandedHas(t: Timing, e: Option<Entry>, call: Call, ticking: bool, now: int, o: Outcome)
    requires if call.Unneeded? then Has(e) else StateOf(e, t.ttl, call.began) != Fresh
    ensures var l := Landed(t, e, call, ticking, now, o);
            if Has(e) then
              Has(l.entry) <==> !(ticking && call.Fetching? && o.FetchFailed? && now - e.value.storedAt > t.window)
            else Has(l.entry) <==> o.Fetched?
  {
  }

  lemma FinishHas(p: Plan, s: State, i: nat, o: Outcome)
    requires Inv(p, s) && After(p, s, Finish(i, o)).Some?
    ensures i < |s.calls|
    ensures var t := After(p, s, Finish(i, o)).value;
            if Has(s.entries[i]) then Has(t.entries[i]) <==> !Drops(p, s, Finish(i, o), i)
            else Has(t.entries[i]) <==> o.Fetched?
    ensures forall k :: 0 <= k < |s.calls| && k != i ==> After(p, s, Finish(i, o)).value.entries[k] == s.entries[k]
  {
    hide C.Inv, C.After, Landed;
    LandedHas(p.timings[i], s.entries[i], s.calls[i].value, s.sys.sources[i].phase.Ticking?, s.now, o);
  }

  /** A payload goes exactly by a drop, and comes exactly by a fetch. */
  lemma StepPayload(p: Plan, s: State, a: Step, i: nat)
    requires Inv(p, s) && After(p, s, a).Some? && i < |s.calls|
    ensures i < |After(p, s, a).value.entries|
    ensures var t := After(p, s, a).value;
            if Has(s.entries[i]) then Has(t.entries[i]) <==> !Drops(p, s, a, i)
            else Has(t.entries[i]) <==> a.Finish? && a.i == i && a.o.Fetched?
  {
    hide C.Inv, C.After, Landed, SourceOk;
    if a.Finish? { FinishHas(p, s, a.i, a.o); }
  }

  lemma MarkedHas(p: Plan, s: State, i: nat, j: nat, m: C.Move, e: Option<Entry>, call: Option<Call>)
    requires Inv(p, s) && i < |s.calls| && j < |s.calls| && Moved(p, s, j, m, e, call).Some?
    ensures var t := Moved(p, s, j, m, e, call).value;
            && i < |t.sys.sources| && |t.entries| == |s.entries| && (i == j ==> t.entries[i] == e)
            && (t.sys.sources[i].bootstrap == s.sys.sources[i].bootstrap
                || (i == j && m.Mark? && (t.sys.sources[i].bootstrap == C.Succeeded ==> Has(s.entries[i]))))
  {
    hide C.Inv;
  }

  /** A source that turns `Succeeded` has a payload. */
  lemma SuccessHas(p: Plan, s: State, a: Step, i: nat)
    requires Inv(p, s) && After(p, s, a).Some? && i < |s.calls|
    ensures var t := After(p, s, a).value;
            && i < |t.sys.sources| && i < |t.entries|
            && (s.sys.sources[i].bootstrap != C.Succeeded && t.sys.sources[i].bootstrap == C.Succeeded ==>
               Has(t.entries[i]))
  {
    hide C.Inv, Moved, Landed, SourceOk;
    match a
    case Pass(d) =>
    case Global(g) => GlobalKeepsPhases(p.coord, s.sys, g, i);
    case Begin(j) =>
      var due := StateOf(s.entries[j], p.timings[j].ttl, s.now) != Fresh;
      MarkedHas(p, s, i, j, if s.sys.sources[j].phase.Steady? then C.Tick(due) else C.Attempt(due), s.entries[j],
                Some(if due then Fetching(s.now) else Unneeded(s.now)));
    case Finish(j, o) =>
      var l := Landed(p.timings[j], s.entries[j], s.calls[j].value, s.sys.sources[j].phase.Ticking?, s.now, o);
      MarkedHas(p, s, i, j, if l.ok then C.Ok else C.Err, l.entry, None);
    case Local(j, m) => MarkedHas(p, s, i, j, m, s.entries[j], s.calls[j]);
  }

  /** State `t` is the last one up to `j` in which source `i` has a payload. */
  ghost predicate LastHad(run: seq<State>, t: nat, j: nat, i: nat)
    requires t <= j < |run|
  {
    && i < |run[t].entries| && Has(run[t].entries[i])
    && forall u :: t < u <= j ==> i < |run[u].entries| && !Has(run[u].entries[i])
  }

  /** Step `t` of the run drops the payload of source `i`. */
  ghost predicate DroppedAt(p: Plan, run: seq<State>, t: nat, i: nat) {
    && t + 1 < |run| && Sized(p, run[t]) && i < |run[t].calls| && Has(run[t].entries[i])
    && exists a :: After(p, run[t], a) == Some(run[t + 1]) && Drops(p, run[t], a, i)
  }

  /** Exactly: a source that has succeeded is without a payload if and only if a tick has dropped it
      and nothing was fetched since. */
  lemma {:induction false} MissingExactly(p: Plan, run: seq<State>, j: nat, i: nat)
    requires Run(p, run) && j < |run| && i < |p.coord.rows| && p.coord.rows[i].enabled
    requires i < |run[j].sys.sources| && run[j].sys.sources[i].bootstrap == C.Succeeded
    ensures i < |run[j].entries|
    ensures !Has(run[j].entries[i]) <==> exists t: nat :: t < j && DroppedAt(p, run, t, i) && LastHad(run, t, j, i)
  {
    hide After, Inv, Drops;
    RunKeepsInv(p, run, j);
    SizeOf(p, run[j]);
    FirstPending(p, run, i);
    if j == 0 {
      assert false;
    } else if !Has(run[j].entries[i]) {
      RunKeepsInv(p, run, j - 1);
      SizeOf(p, run[j - 1]);
      assert Next(p, run[j - 1], run[j - 1 + 1]);
      var a :| After(p, run[j - 1], a) == Some(run[j]);
      StepPayload(p, run[j - 1], a, i);
      SuccessHas(p, run[j - 1], a, i);
      if Has(run[j - 1].entries[i]) {
        assert DroppedAt(p, run, j - 1, i) && LastHad(run, j - 1, j, i);
      } else {
        MissingExactly(p, run, j - 1, i);
        var t: nat :| t < j - 1 && DroppedAt(p, run, t, i) && LastHad(run, t, j - 1, i);
        assert LastHad(run, t, j, i);
      }
    }
  }

  lemma SizeOf(p: Plan, s: State)
    requires Inv(p, s)
    ensures Sized(p, s)
  {
  }

  lemma FirstPending(p: Plan, run: seq<State>, i: nat)
    requires Run(p, run) && i < |p.coord.rows| && p.coord.rows[i].enabled
    ensures i < |run[0].sys.sources| && run[0].sys.sources[i].bootstrap == C.Pending
  {
  }

  /** When the gate serves, every enabled source has a payload, or has lost it since to the stale-on-error
      window; a source that never refreshes has one. */
  lemma ServeMeansCached(p: Plan, run: seq<State>, r: nat, j: nat, i: nat)
    requires Run(p, run) && r <= j < |run| && i < |p.coord.rows| && p.coord.rows[i].enabled
    requires |run[j].sys.sources| == |p.coord.rows| && C.Gate(p.coord, run[r].sys, run[j].sys) == C.Serve
    ensures i < |run[j].entries|
    ensures Has(run[j].entries[i]) || exists t: nat :: t < j && DroppedAt(p, run, t, i) && LastHad(run, t, j, i)
    ensures !p.coord.rows[i].refreshing ==> Has(run[j].entries[i])
  {
    hide After, Drops, C.Inv;
    MissingExactly(p, run, j, i);
    RunKeepsInv(p, run, j);
    if t: nat :| t < j && DroppedAt(p, run, t, i) && LastHad(run, t, j, i) {
      RunKeepsInv(p, run, t);
      DropsRefreshing(p, run, t, i);
    }
  }

  lemma DropsRefreshing(p: Plan, run: seq<State>, t: nat, i: nat)
    requires DroppedAt(p, run, t, i) && Inv(p, run[t])
    ensures p.coord.rows[i].refreshing
  {
    hide After;
    assert C.SourceInv(p.coord.rows[i], C.Attempts(p.coord), run[t].sys.cancelled, run[t].sys.sources[i]);
  }

  // ----- who has a payload, in every state

  /** Step `t` of the run brings a payload for source `i`. */
  ghost predicate FetchedAt(p: Plan, run: seq<State>, t: nat, i: nat) {
    && t + 1 < |run| && i < |run[t].calls| && run[t].calls[i].Some? && run[t].calls[i].value.Fetching?
    && exists o: Outcome :: o.Fetched? && After(p, run[t], Finish(i, o)) == Some(run[t + 1])
  }

  /** No step from `t` to `j` drops the payload of source `i`. */
  ghost predicate Undropped(p: Plan, run: seq<State>, t: nat, j: nat, i: nat) {
    forall u: nat :: t <= u < j ==> !DroppedAt(p, run, u, i)
  }

  /** Source `i` had a payload from disk or fetched one, and it was not dropped up to state `j`. */
  ghost predicate Supplied(p: Plan, run: seq<State>, j: nat, i: nat)
    requires 0 < |run| && i < |run[0].entries|
  {
    || (Has(run[0].entries[i]) && Undropped(p, run, 0, j, i))
    || exists u: nat :: u < j && FetchedAt(p, run, u, i) && Undropped(p, run, u, j, i)
  }

  lemma SizesOf(p: Plan, run: seq<State>, j: nat)
    requires Run(p, run) && j < |run|
    ensures Sized(p, run[j])
  {
    RunKeepsInv(p, run, j);
  }

  /** Between two states a payload comes exactly by a fetch and goes exactly by a drop. */
  lemma StepHas(p: Plan, run: seq<State>, t: nat, i: nat)
    requires Run(p, run) && t + 1 < |run| && i < |p.coord.rows|
    ensures i < |run[t].entries| && i < |run[t + 1].entries|
    ensures DroppedAt(p, run, t, i) <==> Has(run[t].entries[i]) && !Has(run[t + 1].entries[i])
    ensures FetchedAt(p, run, t, i) ==> Has(run[t + 1].entries[i])
    ensures !Has(run[t].entries[i]) && Has(run[t + 1].entries[i]) ==> FetchedAt(p, run, t, i)
  {
    hide After, Drops, C.Inv;
    RunKeepsInv(p, run, t);
    assert Next(p, run[t], run[t + 1]);
    var a :| After(p, run[t], a) == Some(run[t + 1]);
    StepPayload(p, run[t], a, i);
    if FetchedAt(p, run, t, i) {
      var o: Outcome :| o.Fetched? && After(p, run[t], Finish(i, o)) == Some(run[t + 1]);
      StepPayload(p, run[t], Finish(i, o), i);
      FetchDropsNothing(p, run[t], i, o);
    }
    if DroppedAt(p, run, t, i) {
      var d :| After(p, run[t], d) == Some(run[t + 1]) && Drops(p, run[t], d, i);
      StepPayload(p, run[t], d, i);
    }
    if !Has(run[t].entries[i]) && Has(run[t + 1].entries[i]) { FinishFetches(p, run[t], i, a.o); }
  }

  lemma FetchDropsNothing(p: Plan, s: State, i: nat, o: Outcome)
    requires Sized(p, s) && i < |s.calls| && o.Fetched?
    ensures Has(s.entries[i]) ==> !Drops(p, s, Finish(i, o), i)
  {
  }

  lemma FinishFetches(p: Plan, s: State, i: nat, o: Outcome)
    requires Inv(p, s) && i < |s.calls| && After(p, s, Finish(i, o)).Some? && !Has(s.entries[i])
    ensures s.calls[i].Some? && s.calls[i].value.Fetching?
  {
    hide C.Inv, C.After, Landed;
    assert SourceOk(p.timings[i], s.sys.sources[i].phase, s.entries[i], s.calls[i]);
  }

  /** Exactly, in every state: a source has a payload if and only if it had one from disk or fetched
      one, and no tick has dropped it since. */
  lemma {:induction false} HasExactly(p: Plan, run: seq<State>, j: nat, i: nat)
    requires Run(p, run) && j < |run| && i < |p.coord.rows|
    ensures i < |run[0].entries| && i < |run[j].entries|
    ensures Has(run[j].entries[i]) <==> Supplied(p, run, j, i)
  {
    hide Run, DroppedAt, FetchedAt;
    SizesOf(p, run, 0);
    SizesOf(p, run, j);
    if j > 0 {
      HasExactly(p, run, j - 1, i);
      StepHas(p, run, j - 1, i);
      SuppliedStep(p, run, j, i);
    }
  }

  lemma SuppliedStep(p: Plan, run: seq<State>, j: nat, i: nat)
    requires 0 < j < |run| && i < |run[0].entries|
    requires !(FetchedAt(p, run, j - 1, i) && DroppedAt(p, run, j - 1, i))
    ensures Supplied(p, run, j, i) <==>
            FetchedAt(p, run, j - 1, i) || (Supplied(p, run, j - 1, i) && !DroppedAt(p, run, j - 1, i))
  {
    hide DroppedAt, FetchedAt;
    if Supplied(p, run, j - 1, i) && !DroppedAt(p, run, j - 1, i) {
      if u: nat :| u < j - 1 && FetchedAt(p, run, u, i) && Undropped(p, run, u, j - 1, i) {
        assert Undropped(p, run, u, j, i);
      }
    }
    if FetchedAt(p, run, j - 1, i) { assert Undropped(p, run, j - 1, j, i); }
  }

  // ----- which payload it is

  /** Step `t` of the run ends a fetch for source `i` that brought `q`. */
  ghost predicate BroughtAt(p: Plan, run: seq<State>, t: nat, i: nat, q: Payload) {
    && t + 1 < |run| && i < |run[t].calls| && run[t].calls[i].Some? && run[t].calls[i].value.Fetching?
    && exists persisted :: After(p, run[t], Finish(i, Fetched(q, persisted))) == Some(run[t + 1])
  }

  /** No step from `t` to `j` brings or drops a payload of source `i`. */
  ghost predicate Untouched(p: Plan, run: seq<State>, t: nat, j: nat, i: nat) {
    forall u: nat :: t <= u < j ==> !DroppedAt(p, run, u, i) && !FetchedAt(p, run, u, i)
  }

  /** `q` is what the last fetch that succeeded brought, or came from disk if there was none, and it was
      not dropped up to state `j`. */
  ghost predicate LastBrought(p: Plan, run: seq<State>, j: nat, i: nat, q: Payload)
    requires 0 < |run| && i < |run[0].entries|
  {
    || (PayloadOf(run[0].entries[i]) == Some(q) && Untouched(p, run, 0, j, i))
    || exists u: nat :: u < j && BroughtAt(p, run, u, i, q) && Untouched(p, run, u + 1, j, i)
  }

  lemma LandedPayload(t: Timing, e: Option<Entry>, call: Call, ticking: bool, now: int, o: Outcome)
    requires call.Fetching? && StateOf(e, t.ttl, call.began) != Fresh && Has(Landed(t, e, call, ticking, now, o).entry)
    ensures PayloadOf(Landed(t, e, call, ticking, now, o).entry) == if o.Fetched? then Some(o.payload) else PayloadOf(e)
  {
  }

  lemma FinishPayload(p: Plan, s: State, i: nat, o: Outcome)
    requires Inv(p, s) && After(p, s, Finish(i, o)).Some? && i < |s.calls|
    requires i < |After(p, s, Finish(i, o)).value.entries| && Has(After(p, s, Finish(i, o)).value.entries[i])
    ensures s.calls[i].Some?
    ensures PayloadOf(After(p, s, Finish(i, o)).value.entries[i])
            == if s.calls[i].value.Fetching? && o.Fetched? then Some(o.payload) else PayloadOf(s.entries[i])
  {
    hide C.Inv, C.After, Landed;
    assert SourceOk(p.timings[i], s.sys.sources[i].phase, s.entries[i], s.calls[i]);
    var l := Landed(p.timings[i], s.entries[i], s.calls[i].value, s.sys.sources[i].phase.Ticking?, s.now, o);
    if s.calls[i].value.Fetching? {
      LandedPayload(p.timings[i], s.entries[i], s.calls[i].value, s.sys.sources[i].phase.Ticking?, s.now, o);
    } else {
      UnneededKeeps(p.timings[i], s.entries[i], s.calls[i].value, s.sys.sources[i].phase.Ticking?, s.now, o);
    }
  }

  lemma UnneededKeeps(t: Timing, e: Option<Entry>, call: Call, ticking: bool, now: int, o: Outcome)
    requires call.Unneeded?
    ensures Landed(t, e, call, ticking, now, o).entry == e
  {
  }

  lemma OthersKeep(p: Plan, s: State, a: Step, i: nat)
    requires Inv(p, s) && After(p, s, a).Some? && i < |s.calls| && !(a.Finish? && a.i == i)
    ensures i < |After(p, s, a).value.entries| && After(p, s, a).value.entries[i] == s.entries[i]
  {
    hide C.Inv, C.After, Landed, SourceOk;
  }

  lemma BroughtIsFetched(p: Plan, run: seq<State>, t: nat, i: nat, q: Payload)
    requires BroughtAt(p, run, t, i, q)
    ensures FetchedAt(p, run, t, i)
  {
    hide After;
    var persisted :| After(p, run[t], Finish(i, Fetched(q, persisted))) == Some(run[t + 1]);
    assert Fetched(q, persisted).Fetched?;
  }

  /** Between two states a payload is replaced exactly by what a fetch brings. */
  lemma StepBrings(p: Plan, run: seq<State>, t: nat, i: nat, q: Payload)
    requires Run(p, run) && t + 1 < |run| && i < |p.coord.rows|
    ensures i < |run[t].entries| && i < |run[t + 1].entries|
    ensures FetchedAt(p, run, t, i) ==> (PayloadOf(run[t + 1].entries[i]) == Some(q) <==> BroughtAt(p, run, t, i, q))
    ensures !FetchedAt(p, run, t, i) && Has(run[t + 1].entries[i]) ==>
              PayloadOf(run[t + 1].entries[i]) == PayloadOf(run[t].entries[i])
  {
    hide After, C.Inv, DroppedAt;
    RunKeepsInv(p, run, t);
    StepHas(p, run, t, i);
    if FetchedAt(p, run, t, i) {
      var o: Outcome :| o.Fetched? && After(p, run[t], Finish(i, o)) == Some(run[t + 1]);
      FinishPayload(p, run[t], i, o);
      assert o == Fetched(o.payload, o.persisted);
      if persisted :| After(p, run[t], Finish(i, Fetched(q, persisted))) == Some(run[t + 1]) {
        FinishPayload(p, run[t], i, Fetched(q, persisted));
      }
    } else if Has(run[t + 1].entries[i]) {
      assert Next(p, run[t], run[t + 1]);
      var a :| After(p, run[t], a) == Some(run[t + 1]);
      if a.Finish? && a.i == i { FinishPayload(p, run[t], i, a.o); } else { OthersKeep(p, run[t], a, i); }
    }
  }

  lemma LastBroughtStep(p: Plan, run: seq<State>, j: nat, i: nat, q: Payload)
    requires 0 < j < |run| && i < |run[0].entries|
    ensures LastBrought(p, run, j, i, q) <==>
            || BroughtAt(p, run, j - 1, i, q)
            || (LastBrought(p, run, j - 1, i, q) && !DroppedAt(p, run, j - 1, i) && !FetchedAt(p, run, j - 1, i))
  {
    hide DroppedAt, FetchedAt, BroughtAt;
    if LastBrought(p, run, j - 1, i, q) && !DroppedAt(p, run, j - 1, i) && !FetchedAt(p, run, j - 1, i) {
      if u: nat :| u < j - 1 && BroughtAt(p, run, u, i, q) && Untouched(p, run, u + 1, j - 1, i) {
        assert Untouched(p, run, u + 1, j, i);
      }
    }
    if BroughtAt(p, run, j - 1, i, q) { assert Untouched(p, run, j, j, i); }
  }

  /** Exactly, in every state: the payload a source has is what its last fetch that succeeded brought, or
      the one from disk if there was none. */
  lemma {:induction false} PayloadExactly(p: Plan, run: seq<State>, j: nat, i: nat, q: Payload)
    requires Run(p, run) && j < |run| && i < |p.coord.rows|
    ensures i < |run[0].entries| && i < |run[j].entries|
    ensures PayloadOf(run[j].entries[i]) == Some(q) <==> LastBrought(p, run, j, i, q)
  {
    hide Run, DroppedAt, FetchedAt, BroughtAt;
    SizesOf(p, run, 0);
    SizesOf(p, run, j);
    if j > 0 {
      PayloadExactly(p, run, j - 1, i, q);
      StepHas(p, run, j - 1, i);
      StepBrings(p, run, j - 1, i, q);
      LastBroughtStep(p, run, j, i, q);
      if BroughtAt(p, run, j - 1, i, q) { BroughtIsFetched(p, run, j - 1, i, q); }
    }
  }

  // ----- what a failed bootstrap means for the cache

  /** The source has not succeeded and is not about to be marked. */
  predicate Unmet(s: C.Source) { s.bootstrap != C.Succeeded && !s.phase.MarkOk? && !s.phase.Promote? }

  /** Step `t` fetches a payload for source `i` that cannot be written to disk. */
  ghost predicate UnsavedAt(p: Plan, run: seq<State>, t: nat, i: nat) {
    && t + 1 < |run| && i < |p.timings| && p.timings[i].persistent
    && i < |run[t].calls| && run[t].calls[i].Some? && run[t].calls[i].value.Fetching?
    && exists q :: After(p, run[t], Finish(i, Fetched(q, false))) == Some(run[t + 1])
  }

  /** As `Supplied`, with fetches whose payload could not be written. */
  ghost predicate SuppliedUnsaved(p: Plan, run: seq<State>, j: nat, i: nat)
    requires 0 < |run| && i < |run[0].entries|
  {
    || (Has(run[0].entries[i]) && Undropped(p, run, 0, j, i))
    || exists u: nat :: u < j && UnsavedAt(p, run, u, i) && Undropped(p, run, u, j, i)
  }

  lemma UnmetBefore(p: Plan, s: State, a: Step, i: nat)
    requires Inv(p, s) && After(p, s, a).Some? && i < |s.calls| && i < |After(p, s, a).value.sys.sources|
    requires Unmet(After(p, s, a).value.sys.sources[i])
    ensures Unmet(s.sys.sources[i])
  {
    hide Landed, SourceOk;
    assert C.SourceInv(p.coord.rows[i], C.Attempts(p.coord), s.sys.cancelled, s.sys.sources[i]);
  }

  lemma {:induction false} UnmetAllAlong(p: Plan, run: seq<State>, t: nat, j: nat, i: nat)
    requires Run(p, run) && t <= j < |run| && i < |p.coord.rows|
    requires i < |run[j].sys.sources| && Unmet(run[j].sys.sources[i])
    ensures i < |run[t].sys.sources| && Unmet(run[t].sys.sources[i])
    decreases j
  {
    hide After, Inv, Unmet;
    if t < j {
      RunKeepsInv(p, run, j - 1);
      SizeOf(p, run[j - 1]);
      assert Next(p, run[j - 1], run[j - 1 + 1]);
      var a :| After(p, run[j - 1], a) == Some(run[j]);
      UnmetBefore(p, run[j - 1], a, i);
      UnmetAllAlong(p, run, t, j - 1, i);
    }
  }

  /** A fetch that leaves its source unmet reported an error, so only the write failed. */
  lemma FetchedWhileUnmet(p: Plan, s: State, i: nat, o: Outcome)
    requires Inv(p, s) && After(p, s, Finish(i, o)).Some? && o.Fetched? && i < |s.calls|
    requires s.calls[i].Some? && s.calls[i].value.Fetching?
    requires i < |After(p, s, Finish(i, o)).value.sys.sources| && Unmet(After(p, s, Finish(i, o)).value.sys.sources[i])
    ensures p.timings[i].persistent && !o.persisted
  {
    assert SourceOk(p.timings[i], s.sys.sources[i].phase, s.entries[i], s.calls[i]);
  }

  lemma UnmetFetch(p: Plan, run: seq<State>, t: nat, j: nat, i: nat)
    requires Run(p, run) && t < j < |run| && i < |p.coord.rows|
    requires i < |run[j].sys.sources| && Unmet(run[j].sys.sources[i])
    ensures FetchedAt(p, run, t, i) <==> UnsavedAt(p, run, t, i)
  {
    hide After, Inv, Unmet;
    RunKeepsInv(p, run, t);
    SizeOf(p, run[t]);
    UnmetAllAlong(p, run, t + 1, j, i);
    if FetchedAt(p, run, t, i) {
      var o: Outcome :| o.Fetched? && After(p, run[t], Finish(i, o)) == Some(run[t + 1]);
      FetchedWhileUnmet(p, run[t], i, o);
      assert o == Fetched(o.payload, false);
    }
  }

  /** Exactly, for a source that has not succeeded, before ready and after: it has a payload if and only
      if it had one from disk or a fetch brought one that could not be written, and no tick has dropped
      it since. */
  lemma UnmetHasExactly(p: Plan, run: seq<State>, j: nat, i: nat)
    requires Run(p, run) && j < |run| && i < |p.coord.rows|
    requires i < |run[j].sys.sources| && Unmet(run[j].sys.sources[i])
    ensures i < |run[0].entries| && i < |run[j].entries|
    ensures Has(run[j].entries[i]) <==> SuppliedUnsaved(p, run, j, i)
  {
    hide Run, FetchedAt, UnsavedAt, DroppedAt, Unmet, Undropped;
    HasExactly(p, run, j, i);
    forall t: nat | t < j ensures FetchedAt(p, run, t, i) <==> UnsavedAt(p, run, t, i) { UnmetFetch(p, run, t, j, i); }
  }

  // ----- a failed bootstrap over a usable cache

  /** `run` and one more state. */
  lemma RunGrows(p: Plan, run: seq<State>, a: Step, t: State)
    requires Run(p, run) && After(p, run[|run| - 1], a) == Some(t)
    ensures Run(p, run + [t])
  {
    hide After, Init;
    var r := run + [t];
    forall i | 0 <= i < |r| - 1 ensures Next(p, r[i], r[i + 1]) {
      if i < |run| - 1 { assert Next(p, run[i], run[i + 1]); }
    }
  }

  /** One source, one attempt, and a payload from disk that is one second old at a ttl of one second. */
  function StalePlan(window: int, persistent: bool): (p: Plan) {
    Plan(C.Config([C.Row(true, true)], 1), [Timing(1, window, persistent)])
  }

  function At(src: C.Source, main: C.Main, wg: int, e: Entry, call: Option<Call>): (s: State) {
    State(C.Sys([src], main, wg, main == C.Returned, false), 1, [Some(e)], [call])
  }

  function StaleRun(q: Payload): (run: seq<State>) {
    var e := Stored(q, 0);
    var f := Marked(Some(e), "timeout", 1);
    [At(C.Source(C.Off, C.Pending, 0, 0), C.NotStarted, 0, e, None),
     At(C.Source(C.Loop(1), C.Pending, 0, 0), C.Blocked, 1, e, None),
     At(C.Source(C.Refreshing(1), C.Pending, 0, 1), C.Blocked, 1, e, Some(Fetching(1))),
     At(C.Source(C.MarkFail, C.Pending, 0, 1), C.Blocked, 1, f, None),
     At(C.Source(C.Release, C.Failed, 0, 1), C.Blocked, 1, f, None),
     At(C.Source(C.Steady, C.Failed, 1, 1), C.Blocked, 0, f, None),
     At(C.Source(C.Steady, C.Failed, 1, 1), C.Returned, 0, f, None)]
  }

  lemma StartsOne(row: C.Row, src: C.Source)
    requires row.enabled && src.done == 0
    ensures C.Unreleased([row], [src]) == 1 && C.Launched([row], [src]) == [src.(phase := C.Loop(1))]
  {
    assert C.Unreleased([row][..0], [src][..0]) == 0;
  }

  lemma StaleSteps(window: int, persistent: bool, q: Payload)
    ensures var p, run := StalePlan(window, persistent), StaleRun(q);
            && Init(p, run[0])
            && After(p, run[0], Global(C.Start)) == Some(run[1]) && After(p, run[1], Begin(0)) == Some(run[2])
            && After(p, run[2], Finish(0, FetchFailed("timeout"))) == Some(run[3])
  {
    hide C.Launched, C.Unreleased;
    var p, run := StalePlan(window, persistent), StaleRun(q);
    StartsOne(p.coord.rows[0], run[0].sys.sources[0]);
    assert run[1].sys.sources[0 := run[2].sys.sources[0]] == run[2].sys.sources;
    assert run[2].sys.sources[0 := run[3].sys.sources[0]] == run[3].sys.sources;
    assert run[2].entries[0 := run[3].entries[0]] == run[3].entries;
    assert run[1].entries[0 := run[1].entries[0]] == run[2].entries
           && run[1].calls[0 := run[2].calls[0]] == run[2].calls;
    assert run[2].calls[0 := None] == run[3].calls;
  }

  lemma StaleEnd(window: int, persistent: bool, q: Payload)
    ensures var p, run := StalePlan(window, persistent), StaleRun(q);
            && After(p, run[3], Local(0, C.Mark)) == Some(run[4]) && After(p, run[4], Local(0, C.Done)) == Some(run[5])
            && After(p, run[5], Global(C.Signal)) == Some(run[6])
  {
    hide C.Launched, C.Unreleased;
    var p, run := StalePlan(window, persistent), StaleRun(q);
    assert run[3].sys.sources[0 := run[4].sys.sources[0]] == run[4].sys.sources;
    assert run[4].sys.sources[0 := run[5].sys.sources[0]] == run[5].sys.sources;
    assert run[3].entries[0 := run[3].entries[0]] == run[4].entries && run[3].calls[0 := None] == run[4].calls;
  }

  /** The gate can answer failed while the only source has a payload that could be served stale. */
  lemma FailedCanHave(window: int, persistent: bool, q: Payload)
    ensures var p, run := StalePlan(window, persistent), StaleRun(q);
            && Run(p, run) && C.Gate(p.coord, run[6].sys, run[6].sys) == C.BootstrapFailed && Has(run[6].entries[0])
  {
    hide After, Init;
    StaleSteps(window, persistent, q);
    StaleEnd(window, persistent, q);
    var p, run := StalePlan(window, persistent), StaleRun(q);
    forall i | 0 <= i < |run| - 1 ensures Next(p, run[i], run[i + 1]) {
      assert i == 0 || i == 1 || i == 2 || i == 3 || i == 4 || i == 5;
    }
    assert !C.AllSucceeded(p.coord, run[6].sys) by { assert p.coord.rows[0].enabled; }
  }

  // ----- what the gate lets a build see

  /** `inp` is what a build reads in state `s`; `parse` makes a document of a payload. */
  ghost predicate Reads(p: Plan, s: State, inp: P.Input, parse: Payload -> Node) {
    && |inp.rows| == |p.coord.rows| == |s.entries|
    && forall i :: 0 <= i < |inp.rows| ==>
         && inp.rows[i].enable == p.coord.rows[i].enabled
         && (inp.rows[i].name in inp.docs <==> Has(s.entries[i]))
         && (Has(s.entries[i]) ==> inp.docs[inp.rows[i].name] == parse(PayloadOf(s.entries[i]).value))
  }

  /** What a build merges for an enabled source is the document that its last successful fetch brought, or
      the one from disk if there was none, read under the row's name and priority. */
  lemma MergesLastBrought(p: Plan, run: seq<State>, j: nat, i: nat, inp: P.Input, parse: Payload -> Node, q: Payload)
    requires Run(p, run) && j < |run| && i < |p.coord.rows| && p.coord.rows[i].enabled
    requires Reads(p, run[j], inp, parse) && i < |run[0].entries| && LastBrought(p, run, j, i, q)
    ensures exists n :: 0 <= n < |P.Sources(inp)| && T.ReadFrom(P.Sources(inp)[n], inp.rows[i], parse(q))
  {
    hide Run, LastBrought, P.Sources, T.ReadFrom, P.ReadSource;
    PayloadExactly(p, run, j, i, q);
    var n := T.ActiveIsSource(inp, inp.rows[i]);
    T.ReadSourceIs(inp.rows[i], parse(q));
  }

  /** Exactly, in every state: an enabled source contributes to a build that reads the cache now if and
      only if it is supplied. */
  lemma MergesExactly(p: Plan, run: seq<State>, j: nat, i: nat, inp: P.Input,
                     parse: Payload -> Node)
    requires Run(p, run) && j < |run| && i < |p.coord.rows| && p.coord.rows[i].enabled && Reads(p, run[j], inp, parse)
    ensures i < |run[0].entries|
    ensures B.Contributing(P.Sources(inp), inp.rows[i].name) <==> Supplied(p, run, j, i)
  {
    hide Run, Supplied, P.Sources, B.Contributing;
    HasExactly(p, run, j, i);
    B.ContributesExactly(inp, inp.rows[i].name);
    assert inp.rows[i] in inp.rows;
  }

  /** Exactly: when the gate serves, an enabled source contributes to the build unless a tick has dropped
      it past its window and nothing was fetched since. */
  lemma ServeMerges(p: Plan, run: seq<State>, r: nat, j: nat, i: nat, inp: P.Input,
                     parse: Payload -> Node)
    requires Run(p, run) && r <= j < |run| && i < |p.coord.rows| && p.coord.rows[i].enabled
             && Reads(p, run[j], inp, parse)
    requires |run[j].sys.sources| == |p.coord.rows| && C.Gate(p.coord, run[r].sys, run[j].sys) == C.Serve
    ensures B.Contributing(P.Sources(inp), inp.rows[i].name) <==>
            !exists t: nat :: t < j && DroppedAt(p, run, t, i) && LastHad(run, t, j, i)
    ensures !p.coord.rows[i].refreshing ==> B.Contributing(P.Sources(inp), inp.rows[i].name)
  {
    hide Run, DroppedAt, LastHad, P.Sources, B.Contributing, C.Gate;
    GateSucceeded(p, run[r].sys, run[j].sys, i);
    MissingExactly(p, run, j, i);
    ServeMeansCached(p, run, r, j, i);
    B.ContributesExactly(inp, inp.rows[i].name);
    assert inp.rows[i] in inp.rows;
  }

  lemma GateSucceeded(p: Plan, s: C.Sys, t: C.Sys, i: nat)
    requires |t.sources| == |p.coord.rows| && C.Gate(p.coord, s, t) == C.Serve && i < |p.coord.rows|
             && p.coord.rows[i].enabled
    ensures t.sources[i].bootstrap == C.Succeeded
  {
  }

  lemma {:induction false} RunIsForward(p: Plan, run: seq<State>, r: nat, j: nat)
    requires Run(p, run) && r <= j < |run|
    ensures C.Forward(run[r].sys, run[j].sys)
    decreases j
  {
    hide After, Inv, C.Forward;
    if r < j {
      RunIsForward(p, run, r, j - 1);
      RunKeepsInv(p, run, j - 1);
      assert Next(p, run[j - 1], run[j - 1 + 1]);
      var a :| After(p, run[j - 1], a) == Some(run[j]);
      SysKeepsInv(p, run[j - 1], a);
      C.ForwardTransitive(run[r].sys, run[j - 1].sys, run[j].sys);
    } else {
      C.ForwardItself(run[r].sys);
    }
  }

  /** The source has used up its attempts without a tick recovering it, or was cancelled while trying. */
  predicate GaveUp(s: C.Sys, i: nat) {
    && i < |s.sources|
    && (s.sources[i].bootstrap == C.Failed || (s.sources[i].bootstrap == C.Pending && s.cancelled))
  }

  lemma ReadyGaveUp(p: Plan, run: seq<State>, j: nat, i: nat)
    requires Run(p, run) && j < |run| && run[j].sys.ready && i < |p.coord.rows| && p.coord.rows[i].enabled
    ensures i < |run[j].sys.sources| && (run[j].sys.sources[i].bootstrap != C.Succeeded <==> GaveUp(run[j].sys, i))
  {
    hide Run;
    var coord := Projects(p, run, j);
    C.ReadyMeansReleased(p.coord, coord, |coord| - 1);
    C.RunKeepsInv(p.coord, coord, |coord| - 1);
    assert C.SourceInv(p.coord.rows[i], C.Attempts(p.coord), run[j].sys.cancelled, run[j].sys.sources[i]);
  }

  /** Some enabled source is missing from a build on `inp`. */
  ghost predicate Incomplete(p: Plan, inp: P.Input)
    requires |inp.rows| == |p.coord.rows|
  {
    exists i: nat :: i < |inp.rows| && p.coord.rows[i].enabled && !B.Contributing(P.Sources(inp), inp.rows[i].name)
  }

  /** When the gate answers failed, some enabled source has given up. Such a source, unless a tick has just
      refreshed it, has a payload if and only if it had one from disk or one that could not be written, not
      dropped since; and an enabled source is missing, as the answer says, if and only if one is not
      supplied. */
  lemma FailedMerges(p: Plan, run: seq<State>, r: nat, j: nat, inp: P.Input, parse: Payload -> Node)
    requires Run(p, run) && r <= j < |run| && Reads(p, run[j], inp, parse)
    requires |run[j].sys.sources| == |p.coord.rows|
    requires C.Gate(p.coord, run[r].sys, run[j].sys) == C.BootstrapFailed
    ensures exists i: nat :: i < |p.coord.rows| && p.coord.rows[i].enabled && GaveUp(run[j].sys, i)
    ensures forall i: nat :: i < |p.coord.rows| && p.coord.rows[i].enabled && GaveUp(run[j].sys, i) ==>
              run[j].sys.sources[i].phase.Promote? ||
              (B.Contributing(P.Sources(inp), inp.rows[i].name) <==> SuppliedUnsaved(p, run, j, i))
    ensures Incomplete(p, inp) <==>
            exists i: nat :: i < |p.coord.rows| && p.coord.rows[i].enabled && !Supplied(p, run, j, i)
  {
    hide Run, Supplied, SuppliedUnsaved, P.Sources, B.Contributing;
    RunIsForward(p, run, r, j);
    SizesOf(p, run, 0);
    forall i: nat | i < |p.coord.rows| && p.coord.rows[i].enabled
      ensures run[j].sys.sources[i].bootstrap != C.Succeeded <==> GaveUp(run[j].sys, i)
      ensures B.Contributing(P.Sources(inp), inp.rows[i].name) <==> Supplied(p, run, j, i)
      ensures GaveUp(run[j].sys, i) ==>
                run[j].sys.sources[i].phase.Promote? ||
                (B.Contributing(P.Sources(inp), inp.rows[i].name) <==> SuppliedUnsaved(p, run, j, i))
    {
      ReadyGaveUp(p, run, j, i);
      MergesExactly(p, run, j, i, inp, parse);
      HasExactly(p, run, j, i);
      if GaveUp(run[j].sys, i) && !run[j].sys.sources[i].phase.Promote? {
        NotMarking(p, run, j, i);
        UnmetHasExactly(p, run, j, i);
      }
    }
  }

  lemma NotMarking(p: Plan, run: seq<State>, j: nat, i: nat)
    requires Run(p, run) && j < |run| && run[j].sys.ready && i < |p.coord.rows| && p.coord.rows[i].enabled
    ensures i < |run[j].sys.sources| && !run[j].sys.sources[i].phase.MarkOk?
  {
    hide Run;
    var coord := Projects(p, run, j);
    C.ReadyMeansReleased(p.coord, coord, |coord| - 1);
    C.ReleasedOnce(p.coord, coord, |coord| - 1, i);
  }

  // ----- the age of what is there, with fetches that take time

  /** No refresh of source `i` takes longer than `d`. */
  ghost predicate Prompt(run: seq<State>, i: nat, d: int) {
    forall k :: 0 <= k < |run| && i < |run[k].calls| && run[k].calls[i].Some? ==>
      run[k].now - run[k].calls[i].value.began <= d
  }

  /** Step `t` ends a tick of source `i`. */
  ghost predicate LandsAt(p: Plan, run: seq<State>, t: nat, i: nat) {
    && t + 1 < |run| && i < |run[t].sys.sources| && run[t].sys.sources[i].phase.Ticking?
    && exists o :: After(p, run[t], Finish(i, o)) == Some(run[t + 1])
  }

  /** From tick `from` on no stretch longer than `gap` is without the end of a tick. */
  ghost predicate Punctual(p: Plan, run: seq<State>, i: nat, from: nat, gap: int) {
    forall x: nat, y: nat :: from < x <= y < |run| && run[y].now - run[x].now > gap ==>
      exists t: nat :: x <= t < y && LandsAt(p, run, t, i)
  }

  lemma LandedAge(t: Timing, e: Option<Entry>, call: Call, now: int, o: Outcome, d: int)
    requires t.ttl >= 0 && now - call.began <= d && (call.Unneeded? <==> StateOf(e, t.ttl, call.began) == Fresh)
    ensures var l := Landed(t, e, call, true, now, o);
            Has(l.entry) ==> now - l.entry.value.storedAt <= Max(t.window, t.ttl + d)
  {
  }

  /** Right after a tick a payload that remains is at most max(window, ttl + d) old. */
  lemma AgeAtLanding(p: Plan, run: seq<State>, t: nat, i: nat, d: int)
    requires Run(p, run) && i < |p.timings| && p.timings[i].ttl >= 0 && Prompt(run, i, d) && LandsAt(p, run, t, i)
    ensures i < |run[t + 1].entries|
    ensures Has(run[t + 1].entries[i]) ==>
              run[t + 1].now - run[t + 1].entries[i].value.storedAt <= Max(p.timings[i].window, p.timings[i].ttl + d)
  {
    hide Landed, C.Inv, C.After;
    RunKeepsInv(p, run, t);
    var s := run[t];
    var o :| After(p, s, Finish(i, o)) == Some(run[t + 1]);
    assert SourceOk(p.timings[i], s.sys.sources[i].phase, s.entries[i], s.calls[i]);
    LandedAge(p.timings[i], s.entries[i], s.calls[i].value, s.now, o, d);
  }

  /** Once a source ticks, only the end of a tick changes its entry. */
  lemma QuietStep(p: Plan, run: seq<State>, t: nat, i: nat)
    requires Run(p, run) && t + 1 < |run| && i < |p.coord.rows| && i < |run[t].sys.sources|
    requires run[t].sys.sources[i].done == 1 && !LandsAt(p, run, t, i)
    ensures i < |run[t].entries| && i < |run[t + 1].entries| && run[t + 1].entries[i] == run[t].entries[i]
  {
    hide Landed;
    RunKeepsInv(p, run, t);
    assert Next(p, run[t], run[t + 1]);
    var a :| After(p, run[t], a) == Some(run[t + 1]);
    assert C.SourceInv(p.coord.rows[i], C.Attempts(p.coord), run[t].sys.cancelled, run[t].sys.sources[i]);
    assert SourceOk(p.timings[i], run[t].sys.sources[i].phase, run[t].entries[i], run[t].calls[i]);
  }

  lemma {:induction false} QuietSince(p: Plan, run: seq<State>, t: nat, j: nat, i: nat)
    requires Run(p, run) && LandsAt(p, run, t, i) && t < j < |run| && i < |p.coord.rows|
    requires forall u: nat :: t < u < j ==> !LandsAt(p, run, u, i)
    ensures i < |run[t + 1].entries| && i < |run[j].entries| && run[j].entries[i] == run[t + 1].entries[i]
    decreases j
  {
    hide Run, LandsAt;
    SizesOf(p, run, t);
    SizesOf(p, run, j);
    if t + 1 < j {
      QuietSince(p, run, t, j - 1, i);
      Released(p, run, t, j - 1, i);
      QuietStep(p, run, j - 1, i);
    }
  }

  lemma Released(p: Plan, run: seq<State>, t: nat, j: nat, i: nat)
    requires Run(p, run) && LandsAt(p, run, t, i) && t <= j < |run| && i < |p.coord.rows|
    ensures i < |run[j].sys.sources| && run[j].sys.sources[i].done == 1
  {
    hide Run, After;
    RunKeepsInv(p, run, t);
    RunKeepsInv(p, run, j);
    RunIsForward(p, run, t, j);
    assert C.SourceInv(p.coord.rows[i], C.Attempts(p.coord), run[t].sys.cancelled, run[t].sys.sources[i]);
    assert C.SourceInv(p.coord.rows[i], C.Attempts(p.coord), run[j].sys.cancelled, run[j].sys.sources[i]);
  }

  lemma {:induction false} LastLanding(p: Plan, run: seq<State>, from: nat, j: nat, i: nat) returns (t: nat)
    requires LandsAt(p, run, from, i) && from < j
    ensures from <= t < j && LandsAt(p, run, t, i) && forall u: nat :: t < u < j ==> !LandsAt(p, run, u, i)
  {
    hide LandsAt;
    t := j - 1;
    if !LandsAt(p, run, t, i) { t := LastLanding(p, run, from, j - 1, i); }
  }

  /** From the first tick on, at any time, what a source serves is at most max(window, ttl + d) + gap old,
      if no refresh takes longer than `d` and ticks end at most `gap` apart. */
  lemma AgeAlways(p: Plan, run: seq<State>, from: nat, j: nat, i: nat, d: int, gap: int)
    requires Run(p, run) && from < j < |run| && i < |p.coord.rows| && i < |p.timings| && p.timings[i].ttl >= 0
    requires LandsAt(p, run, from, i) && Prompt(run, i, d) && Punctual(p, run, i, from, gap)
    ensures i < |run[j].entries|
    ensures Has(run[j].entries[i]) ==>
              run[j].now - run[j].entries[i].value.storedAt <= Max(p.timings[i].window, p.timings[i].ttl + d) + gap
  {
    hide Run, LandsAt, Prompt;
    SizesOf(p, run, j);
    var t := LastLanding(p, run, from, j, i);
    QuietSince(p, run, t, j, i);
    AgeAtLanding(p, run, t, i, d);
    assert t + 1 < |run|;
  }
}
