/** `RefreshIfStale` of one source under any interleaving of callers: the freshness check, the
    single-flight gate, the re-check inside it, the start stamp, the fetch, and drops. */
module SingleFlight {
  import opened Yaml
  import opened FetchCache

  /** Where a caller is. Only the leader of a flight gets past `Checked`; `Fetching` carries the
      stamp read just before the fetch. */
  datatype Caller = Idle | Checked | Following | Rechecking | Stamping | Fetching(stamp: int) | Landing

  /** What happened to the payload, oldest first. */
  datatype Event = Success(stamp: int) | Dropped

  datatype Sys = Sys(now: int, entry: Option<Entry>, callers: seq<Caller>, flight: Option<nat>, log: seq<Event>)

  datatype Action = Advance(d: nat) | Drop | Call(i: nat) | Enter(i: nat) | Recheck(i: nat) | Stamp(i: nat)
                  | Fetch(i: nat, o: Outcome) | Land(i: nat)

  function Put(s: Sys, i: nat, c: Caller): (t: Sys)
    requires i < |s.callers|
  {
    s.(callers := s.callers[i := c])
  }

  /** Followers and the leader return together. */
  function AllLand(cs: seq<Caller>, leader: nat): (r: seq<Caller>)
    ensures |r| == |cs|
  {
    seq(|cs|, i requires 0 <= i < |cs| => if i == leader || cs[i] == Following then Idle else cs[i])
  }

  function After(ttl: int, s: Sys, a: Action): (r: Option<Sys>) {
    match a
    case Advance(d) => Some(s.(now := s.now + d))
    case Drop => Some(s.(entry := None, log := s.log + [Dropped]))
    case Call(i) =>
      if i >= |s.callers| || s.callers[i] != Idle then None
      else if StateOf(s.entry, ttl, s.now) == Fresh then Some(s) else Some(Put(s, i, Checked))
    case Enter(i) =>
      if i >= |s.callers| || s.callers[i] != Checked then None
      else if s.flight.Some? then Some(Put(s, i, Following)) else Some(Put(s, i, Rechecking).(flight := Some(i)))
    case Recheck(i) =>
      if i >= |s.callers| || s.callers[i] != Rechecking then None
      else if StateOf(s.entry, ttl, s.now) == Fresh then Some(Put(s, i, Landing)) else Some(Put(s, i, Stamping))
    case Stamp(i) =>
      if i >= |s.callers| || s.callers[i] != Stamping then None else Some(Put(s, i, Fetching(s.now)))
    case Fetch(i, o) =>
      if i >= |s.callers| || !s.callers[i].Fetching? then None else
        (match o
         case FetchFailed(e) => Some(Put(s, i, Landing).(entry := Some(Marked(s.entry, e, s.now))))
         case Fetched(p, _) =>
           var stamp := s.callers[i].stamp;
           Some(Put(s, i, Landing).(entry := Some(Stored(p, stamp)), log := s.log + [Success(stamp)])))
    case Land(i) =>
      if i >= |s.callers| || s.callers[i] != Landing then None
         else Some(s.(callers := AllLand(s.callers, i), flight := None))
  }

  ghost predicate Init(s: Sys) {
    s.flight.None? && s.log == [] && forall i :: 0 <= i < |s.callers| ==> s.callers[i] == Idle
  }

  ghost predicate Run(ttl: int, run: seq<Sys>) {
    && run != [] && Init(run[0])
    && forall i :: 0 <= i < |run| - 1 ==> exists a :: After(ttl, run[i], a) == Some(run[i + 1])
  }

  // ----- the invariant

  predicate Leads(c: Caller) { c.Rechecking? || c.Stamping? || c.Fetching? || c.Landing? }

  /** The payload is old enough to be replaced by a fetch stamped `t`. */
  ghost predicate Due(ttl: int, e: Option<Entry>, t: int) { PayloadOf(e).Some? ==> t - e.value.storedAt >= ttl }

  ghost predicate CallerInv(ttl: int, s: Sys, c: Caller) {
    match c
    case Stamping => Due(ttl, s.entry, s.now)
    case Fetching(stamp) => stamp <= s.now && Due(ttl, s.entry, stamp)
    case _ => true
  }

  /** Consecutive successes without a drop between them are at least `ttl` apart. */
  ghost predicate Spaced(ttl: int, log: seq<Event>) {
    forall i :: 0 <= i < |log| - 1 && log[i].Success? && log[i + 1].Success? ==> log[i + 1].stamp - log[i].stamp >= ttl
  }

  ghost predicate Inv(ttl: int, s: Sys) {
    && (forall i :: 0 <= i < |s.callers| ==> (Leads(s.callers[i]) <==> s.flight == Some(i)))
    && (s.flight.None? ==> forall i :: 0 <= i < |s.callers| ==> s.callers[i] != Following)
    && (forall i :: 0 <= i < |s.callers| ==> CallerInv(ttl, s, s.callers[i]))
    && (s.log != [] && s.log[|s.log| - 1].Success? ==>
          PayloadOf(s.entry).Some? && s.entry.value.storedAt == s.log[|s.log| - 1].stamp)
    && Spaced(ttl, s.log)
  }

  lemma SpacedSnoc(ttl: int, log: seq<Event>, e: Event)
    requires Spaced(ttl, log)
    requires log != [] && log[|log| - 1].Success? && e.Success? ==> e.stamp - log[|log| - 1].stamp >= ttl
    ensures Spaced(ttl, log + [e])
  {
  }

  lemma FetchKeepsInv(ttl: int, s: Sys, i: nat, o: Outcome)
    requires Inv(ttl, s) && After(ttl, s, Fetch(i, o)).Some?
    ensures Inv(ttl, After(ttl, s, Fetch(i, o)).value)
  {
    var t := After(ttl, s, Fetch(i, o)).value;
    assert CallerInv(ttl, s, s.callers[i]);
    if o.Fetched? { SpacedSnoc(ttl, s.log, Success(s.callers[i].stamp)); }
    forall j | 0 <= j < |t.callers| ensures CallerInv(ttl, t, t.callers[j]) {
      assert j == i || !Leads(t.callers[j]);
    }
  }

  lemma LandKeepsInv(ttl: int, s: Sys, i: nat)
    requires Inv(ttl, s) && After(ttl, s, Land(i)).Some?
    ensures Inv(ttl, After(ttl, s, Land(i)).value)
  {
    var t := After(ttl, s, Land(i)).value;
    forall j | 0 <= j < |t.callers| ensures !Leads(t.callers[j]) && t.callers[j] != Following {
      assert j != i ==> !Leads(s.callers[j]);
    }
  }

  /** A caller's own step, up to the fetch. */
  lemma CallerKeepsInv(ttl: int, s: Sys, a: Action)
    requires Inv(ttl, s) && After(ttl, s, a).Some? && (a.Call? || a.Enter? || a.Recheck? || a.Stamp?)
    ensures Inv(ttl, After(ttl, s, a).value)
  {
    hide Spaced;
    assert CallerInv(ttl, s, s.callers[a.i]);
  }

  lemma NextKeepsInv(ttl: int, s: Sys, a: Action)
    requires Inv(ttl, s) && After(ttl, s, a).Some?
    ensures Inv(ttl, After(ttl, s, a).value)
  {
    match a
    case Fetch(i, o) => FetchKeepsInv(ttl, s, i, o);
    case Land(i) => LandKeepsInv(ttl, s, i);
    case Drop => SpacedSnoc(ttl, s.log, Dropped);
    case Advance(_) =>
    case _ => CallerKeepsInv(ttl, s, a);
  }

  lemma {:induction false} RunKeepsInv(ttl: int, run: seq<Sys>, i: nat)
    requires Run(ttl, run) && i < |run|
    ensures Inv(ttl, run[i])
  {
    if i > 0 {
      RunKeepsInv(ttl, run, i - 1);
      var a :| After(ttl, run[i - 1], a) == Some(run[i - 1 + 1]);
      NextKeepsInv(ttl, run[i - 1], a);
    }
  }

  /** At most one caller is fetching, or on its way to a fetch, in any state of any run. */
  lemma OneFetchInFlight(ttl: int, run: seq<Sys>, k: nat, i: nat, j: nat)
    requires Run(ttl, run) && k < |run| && i < |run[k].callers| && j < |run[k].callers|
    requires Leads(run[k].callers[i]) && Leads(run[k].callers[j])
    ensures i == j
  {
    RunKeepsInv(ttl, run, k);
  }

  // ----- what a caller waits for

  /** The fetch of caller `j` ends with `o`: the new payload under its start stamp, or the old one with the
      failure noted. */
  ghost predicate Ends(s: Sys, t: Sys, j: nat, o: Outcome)
    requires j < |s.callers|
  {
    && s.callers[j].Fetching? && t.entry.Some?
    && (o.Fetched? ==> t.entry.value == Entry(Some(o.payload), s.callers[j].stamp, "", None))
    && (o.FetchFailed? ==>
          && PayloadOf(t.entry) == PayloadOf(s.entry)
          && t.entry.value.lastError == o.error && t.entry.value.failedAt == Some(s.now))
  }

  /** In this step the flight of caller `j` gets its answer: the payload is fresh after all, or a fetch ends. */
  ghost predicate Answers(ttl: int, s: Sys, t: Sys, j: nat) {
    && j < |s.callers| && j < |t.callers| && s.flight == Some(j) && t.callers[j] == Landing
    && ((s.callers[j] == Rechecking && StateOf(s.entry, ttl, s.now) == Fresh && t.entry == s.entry)
        || exists o :: Ends(s, t, j, o))
  }

  /** The flight of caller `j` was answered in the step from state `p`, and is still to land in state `k`. */
  ghost predicate AnsweredAt(ttl: int, run: seq<Sys>, p: nat, k: nat, j: nat)
    requires k < |run|
  {
    && p < k && Answers(ttl, run[p], run[p + 1], j)
    && forall q :: p < q <= k ==> run[q].flight == Some(j) && j < |run[q].callers| && run[q].callers[j] == Landing
  }

  /** How a caller comes to land. */
  lemma StepToLanding(ttl: int, s: Sys, t: Sys, a: Action, j: nat)
    requires Inv(ttl, s) && After(ttl, s, a) == Some(t) && j < |t.callers| && t.callers[j] == Landing
    ensures Answers(ttl, s, t, j) || (j < |s.callers| && s.callers[j] == Landing)
  {
    if a.Fetch? && a.i == j { assert Ends(s, t, j, a.o); }
  }

  lemma {:induction false} LandingIsAnswered(ttl: int, run: seq<Sys>, k: nat, j: nat) returns (p: nat)
    requires Run(ttl, run) && k < |run| && j < |run[k].callers| && run[k].callers[j] == Landing
    ensures AnsweredAt(ttl, run, p, k, j)
  {
    hide Inv, Answers;
    RunKeepsInv(ttl, run, k);
    LeaderHasFlight(ttl, run[k], j);
    p := k - 1;
    RunKeepsInv(ttl, run, p);
    var a :| After(ttl, run[p], a) == Some(run[p + 1]);
    StepToLanding(ttl, run[p], run[k], a, j);
    if !Answers(ttl, run[p], run[p + 1], j) {
      p := LandingIsAnswered(ttl, run, k - 1, j);
    }
  }

  lemma LeaderHasFlight(ttl: int, s: Sys, j: nat)
    requires Inv(ttl, s) && j < |s.callers| && Leads(s.callers[j])
    ensures s.flight == Some(j)
  {
  }

  /** No caller is in a flight. */
  ghost predicate NobodyFlies(s: Sys) {
    s.flight.None? && forall c :: 0 <= c < |s.callers| ==> s.callers[c].Idle? || s.callers[c].Checked?
  }

  /** How a caller comes to return. */
  lemma StepToIdle(ttl: int, s: Sys, t: Sys, a: Action, i: nat)
    requires Inv(ttl, s) && After(ttl, s, a) == Some(t) && i < |s.callers| && s.callers[i] != Idle
    requires i < |t.callers| && t.callers[i] == Idle
    ensures a.Land? && a.i < |s.callers| && s.callers[a.i] == Landing && (i == a.i || s.callers[i] == Following)
    ensures s.flight == Some(a.i) && NobodyFlies(t)
  {
    hide CallerInv, Spaced;
    if a.Land? {
      LandKeepsInv(ttl, s, a.i);
      assert Leads(s.callers[a.i]);
      forall c | 0 <= c < |t.callers| ensures t.callers[c].Idle? || t.callers[c].Checked? {
        assert !Leads(t.callers[c]);
      }
    }
  }

  /** A caller that found the payload not to be fresh returns only when a flight lands, its own or the one it
      joined; that flight was answered before, and everyone in it returns. */
  lemma ReturnsWithFlight(ttl: int, run: seq<Sys>, k: nat, i: nat) returns (j: nat, p: nat)
    requires Run(ttl, run) && k + 1 < |run| && i < |run[k].callers|
    requires run[k].callers[i] != Idle && i < |run[k + 1].callers| && run[k + 1].callers[i] == Idle
    ensures run[k].flight == Some(j) && (i == j || run[k].callers[i] == Following) && NobodyFlies(run[k + 1])
    ensures AnsweredAt(ttl, run, p, k, j)
  {
    hide Inv, After, AnsweredAt, NobodyFlies;
    RunKeepsInv(ttl, run, k);
    var a :| After(ttl, run[k], a) == Some(run[k + 1]);
    StepToIdle(ttl, run[k], run[k + 1], a, i);
    j := a.i;
    p := LandingIsAnswered(ttl, run, k, j);
  }

  /** No `Drop` between two positions of the log. */
  ghost predicate NoDrop(log: seq<Event>, i: nat, j: nat)
    requires i <= j < |log|
  {
    forall k :: i < k < j ==> log[k].Success?
  }

  /** Successive fetches that succeed, with no drop between them, have start stamps at least `ttl`
      per success apart. */
  lemma {:induction false} SuccessesAreSpaced(ttl: int, run: seq<Sys>, k: nat, i: nat, j: nat)
    requires Run(ttl, run) && k < |run| && ttl >= 0
    requires i < j < |run[k].log| && run[k].log[i].Success? && run[k].log[j].Success? && NoDrop(run[k].log, i, j)
    ensures run[k].log[j].stamp - run[k].log[i].stamp >= (j - i) * ttl
    decreases j
  {
    var log := run[k].log;
    RunKeepsInv(ttl, run, k);
    if j > i + 1 {
      SuccessesAreSpaced(ttl, run, k, i, j - 1);
      assert log[j - 1].Success? && log[j - 1 + 1].Success?;
    } else {
      assert log[i].Success? && log[i + 1].Success?;
    }
  }
}
