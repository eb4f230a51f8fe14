/** The per-service circuit breaker (`breaker.py`). Times are integers in any
    fixed unit. `call` awaits the wrapped function between the admission check
    and the recording of its outcome, so calls overlap: the class gives the
    atomic pieces, the sequential refinement runs them call by call, and the
    transition system interleaves them. */
module CircuitBreaker {
  import opened Common
  import opened TimeWindow

  datatype CircuitState = CLOSED | OPEN | HALF_OPEN

  datatype Config = Config(failureThreshold: int, window: int, cooldown: int)

  datatype State = State(circuit: CircuitState, failures: seq<int>, openedAt: int, probe: bool)

  const START := State(CLOSED, [], 0, false)

  // [t for t in failures if now - t <= window]
  function Prune(failures: seq<int>, now: int, window: int): seq<int> {
    Since(failures, now - window)
  }

  function EndCooldown(c: Config, s: State, now: int): State {
    if s.circuit == OPEN && now - s.openedAt >= c.cooldown then s.(circuit := HALF_OPEN, probe := false) else s
  }

  // _before_call: whether the call is let through.
  predicate Admits(c: Config, s: State, now: int) {
    var t := EndCooldown(c, s, now);
    t.circuit == CLOSED || (t.circuit == HALF_OPEN && !t.probe)
  }

  function Before(c: Config, s: State, now: int): State {
    var t := EndCooldown(c, s, now);
    if t.circuit == HALF_OPEN then t.(probe := true) else t
  }

  predicate Trips(c: Config, s: State, now: int) {
    s.circuit == HALF_OPEN || |Prune(s.failures + [now], now, c.window)| >= c.failureThreshold
  }

  function Failure(c: Config, s: State, now: int): State {
    if Trips(c, s, now)
    then State(OPEN, [], now, if s.circuit == HALF_OPEN then false else s.probe)
    else s.(failures := Prune(s.failures + [now], now, c.window))
  }

  function Success(s: State): State {
    if s.circuit == HALF_OPEN then s.(circuit := CLOSED, failures := [], probe := false) else s.(failures := [])
  }

  class CircuitBreaker {
    const config: Config
    var state: CircuitState
    var failureTimestamps: seq<int>
    var openedAt: int
    var halfOpenProbeInFlight: bool

    function Abs(): State
      reads this
    {
      State(state, failureTimestamps, openedAt, halfOpenProbeInFlight)
    }

    constructor (config: Config)
      ensures this.config == config && Abs() == START
    {
      this.config := config;
      state, failureTimestamps, openedAt, halfOpenProbeInFlight := CLOSED, [], 0, false;
    }

    method MaybeEndCooldown(now: int)
      modifies this
      ensures Abs() == EndCooldown(config, old(Abs()), now)
    {
      if state == OPEN && now - openedAt >= config.cooldown {
        state := HALF_OPEN;
        halfOpenProbeInFlight := false;
      }
    }

    // Returns false where the source raises CircuitOpenError.
    method BeforeCall(now: int) returns (admitted: bool)
      modifies this
      ensures admitted == Admits(config, old(Abs()), now)
      ensures Abs() == Before(config, old(Abs()), now)
    {
      MaybeEndCooldown(now);
      if state == OPEN {
        return false;
      }
      if state == HALF_OPEN {
        if halfOpenProbeInFlight {
          return false;
        }
        halfOpenProbeInFlight := true;
      }
      return true;
    }

    method RecordFailure(now: int)
      modifies this
      ensures Abs() == Failure(config, old(Abs()), now)
    {
      if state == HALF_OPEN {
        halfOpenProbeInFlight := false;
        state := OPEN;
        openedAt := now;
        failureTimestamps := [];
        return;
      }
      failureTimestamps := failureTimestamps + [now];
      failureTimestamps := Prune(failureTimestamps, now, config.window);
      if |failureTimestamps| >= config.failureThreshold {
        state := OPEN;
        openedAt := now;
        failureTimestamps := [];
      }
    }

    method RecordSuccess()
      modifies this
      ensures Abs() == Success(old(Abs()))
    {
      if state == HALF_OPEN {
        halfOpenProbeInFlight := false;
        state := CLOSED;
      }
      failureTimestamps := [];
    }

    /** One `call_sync`: the clock reads `call.start` at admission and
        `call.end` if the wrapped function raises. */
    method CallSync(call: Call) returns (admitted: bool)
      modifies this
      ensures admitted == Admits(config, old(Abs()), call.start)
      ensures Abs() == AfterCall(config, old(Abs()), call)
    {
      admitted := BeforeCall(call.start);
      if admitted {
        if call.raises {
          RecordFailure(call.end);
        } else {
          RecordSuccess();
        }
      }
    }
  }

  // ------------------------------------------------------------------
  // Sequential runs refine a specification that keeps the full history
  // ------------------------------------------------------------------

  datatype Call = Call(start: int, raises: bool, end: int)

  function AfterCall(c: Config, s: State, call: Call): State {
    var t := Before(c, s, call.start);
    if !Admits(c, s, call.start) then t
    else if call.raises then Failure(c, t, call.end)
    else Success(t)
  }

  datatype Outcome = Succeeded | Failed(at: int)

  /** The specification never forgets: `outcomes` is every outcome since the
      breaker last closed. */
  datatype Spec = Closed(outcomes: seq<Outcome>) | Opened(at: int)

  /** The last `threshold` outcomes are all failures, the oldest of them no
      more than `window` before the newest. (A threshold below one asks for
      nothing, so any failure will do.) */
  predicate Burst(c: Config, outcomes: seq<Outcome>)
  {
    c.failureThreshold < 1 ||
    var n := |outcomes| - c.failureThreshold;
    && 0 <= n
    && (forall i :: n <= i < |outcomes| ==> outcomes[i].Failed?)
    && outcomes[|outcomes| - 1].at - outcomes[n].at <= c.window
  }

  predicate SpecAdmits(c: Config, p: Spec, now: int) {
    p.Closed? || now - p.at >= c.cooldown
  }

  function SpecCall(c: Config, p: Spec, call: Call): Spec
  {
    if !SpecAdmits(c, p, call.start) then p
    else match p
      case Opened(_) => if call.raises then Opened(call.end) else Closed([])
      case Closed(outcomes) =>
        var grown := outcomes + [if call.raises then Failed(call.end) else Succeeded];
        if call.raises && Burst(c, grown) then Opened(call.end) else Closed(grown)
  }

  predicate Chronological(calls: seq<Call>) {
    && (forall i :: 0 <= i < |calls| ==> calls[i].start <= calls[i].end)
    && (forall i, j :: 0 <= i < j < |calls| ==> calls[i].end <= calls[j].start)
  }

  function RunBreaker(c: Config, calls: seq<Call>): State {
    if calls == [] then START
    else AfterCall(c, RunBreaker(c, calls[..|calls| - 1]), calls[|calls| - 1])
  }

  function RunSpec(c: Config, calls: seq<Call>): Spec
  {
    if calls == [] then Closed([])
    else SpecCall(c, RunSpec(c, calls[..|calls| - 1]), calls[|calls| - 1])
  }

  // The failures at the end of a history, oldest first.
  function Trailing(outcomes: seq<Outcome>): seq<int> {
    if outcomes == [] || outcomes[|outcomes| - 1].Succeeded? then []
    else Trailing(outcomes[..|outcomes| - 1]) + [outcomes[|outcomes| - 1].at]
  }

  lemma {:induction false} TrailingMeans(outcomes: seq<Outcome>)
    ensures var n := |outcomes| - |Trailing(outcomes)|;
            && 0 <= n
            && (forall i :: n <= i < |outcomes| ==> outcomes[i] == Failed(Trailing(outcomes)[i - n]))
            && (0 < n ==> outcomes[n - 1].Succeeded?)
  {
    if outcomes != [] && outcomes[|outcomes| - 1].Failed? {
      TrailingMeans(outcomes[..|outcomes| - 1]);
    }
  }

  lemma TrailingGrows(outcomes: seq<Outcome>, at: int)
    ensures Trailing(outcomes + [Failed(at)]) == Trailing(outcomes) + [at]
  {
    assert (outcomes + [Failed(at)])[..|outcomes|] == outcomes;
  }

  lemma BurstIffKept(c: Config, outcomes: seq<Outcome>, k: nat, now: int)
    requires outcomes != [] && outcomes[|outcomes| - 1] == Failed(now)
    requires CutsAt(Trailing(outcomes), k, now - c.window)
    ensures Burst(c, outcomes) <==> |Trailing(outcomes)| - k >= c.failureThreshold
  {
    TrailingMeans(outcomes);
    var all := Trailing(outcomes);
    if 1 <= c.failureThreshold <= |outcomes| {
      var n := |outcomes| - c.failureThreshold;
      if c.failureThreshold <= |all| {
        assert outcomes[n] == Failed(all[|all| - c.failureThreshold]);
      } else {
        assert outcomes[|outcomes| - |all| - 1].Succeeded?;
      }
    }
  }

  // `kept` is what a CLOSED breaker still holds of `all` its trailing failures.
  predicate Keeps(c: Config, all: seq<int>, kept: seq<int>, now: int) {
    |kept| < Max(c.failureThreshold, 1) && Ascending(all, now) && TailOf(all, kept, now - c.window)
  }

  /** How a breaker state represents a specification state at time `now`. */
  ghost predicate Represents(c: Config, s: State, p: Spec, now: int) {
    match p
    case Opened(at) => s.circuit == OPEN && s.openedAt == at && s.failures == [] && at <= now
    case Closed(outcomes) =>
      && s.circuit == CLOSED
      && Keeps(c, Trailing(outcomes), s.failures, now)
  }

  // One more failure, in the list and in the full run of trailing failures.
  lemma PruneGrown(all: seq<int>, kept: seq<int>, now: int, at: int, window: int) returns (k: nat)
    requires Ascending(all, now) && TailOf(all, kept, now - window) && now <= at
    ensures Ascending(all + [at], at) && CutsAt(all + [at], k, at - window)
    ensures Prune(kept + [at], at, window) == (all + [at])[k..]
  {
    Append(all, now, at);
    TailGrows(all, kept, at - window, at);
    k := ForgettingIsHarmless(all + [at], at, kept + [at], at - window);
  }

  /** A failure trips the pruned list exactly when the full history has a burst. */
  lemma FailureMatches(c: Config, s: State, outcomes: seq<Outcome>, now: int, at: int)
    requires Represents(c, s, Closed(outcomes), now) && now <= at
    ensures Trips(c, s, at) <==> Burst(c, outcomes + [Failed(at)])
  {
    TrailingGrows(outcomes, at);
    var k := PruneGrown(Trailing(outcomes), s.failures, now, at, c.window);
    BurstIffKept(c, outcomes + [Failed(at)], k, at);
  }

  lemma KeepsGrown(c: Config, all: seq<int>, kept: seq<int>, now: int, at: int)
    requires Keeps(c, all, kept, now) && now <= at
    requires |Prune(kept + [at], at, c.window)| < c.failureThreshold
    ensures Keeps(c, all + [at], Prune(kept + [at], at, c.window), at)
  {
    var k := PruneGrown(all, kept, now, at, c.window);
    TailFrom(all + [at], k, at - c.window);
  }

  lemma FailureRepresents(c: Config, s: State, outcomes: seq<Outcome>, now: int, at: int)
    requires Represents(c, s, Closed(outcomes), now) && now <= at && !Trips(c, s, at)
    ensures Represents(c, Failure(c, s, at), Closed(outcomes + [Failed(at)]), at)
  {
    TrailingGrows(outcomes, at);
    KeepsGrown(c, Trailing(outcomes), s.failures, now, at);
  }

  lemma CallMatches(c: Config, s: State, p: Spec, call: Call, now: int)
    requires Represents(c, s, p, now) && now <= call.start <= call.end
    ensures Admits(c, s, call.start) == SpecAdmits(c, p, call.start)
    ensures Represents(c, AfterCall(c, s, call), SpecCall(c, p, call), call.end)
  {
    if p.Closed? && call.raises {
      FailureMatches(c, s, p.outcomes, now, call.end);
      if !Trips(c, s, call.end) {
        FailureRepresents(c, s, p.outcomes, now, call.end);
      }
    }
  }

  /** For every sequence of calls the breaker and the specification are in
      matching states, so they admit the same next call. */
  lemma {:induction false} RefinesFullHistory(c: Config, calls: seq<Call>)
    requires Chronological(calls)
    ensures Represents(c, RunBreaker(c, calls), RunSpec(c, calls), if calls == [] then 0 else calls[|calls| - 1].end)
    ensures forall now :: (calls == [] || calls[|calls| - 1].end <= now) ==>
                            Admits(c, RunBreaker(c, calls), now) == SpecAdmits(c, RunSpec(c, calls), now)
  {
    if calls != [] {
      var n := |calls| - 1;
      RefinesFullHistory(c, calls[..n]);
      if n == 0 {
        assert Represents(c, START, Closed([]), calls[0].start);
        CallMatches(c, START, Closed([]), calls[0], calls[0].start);
      } else {
        CallMatches(c, RunBreaker(c, calls[..n]), RunSpec(c, calls[..n]), calls[n], calls[n - 1].end);
      }
    }
  }

  // ------------------------------------------------------------------
  // Overlapping calls
  // ------------------------------------------------------------------

  datatype Fate = Outstanding | Reported | Abandoned

  /** An admitted call. `episode` numbers the HALF_OPEN episodes begun by the
      time of admission, `tripsBefore` the trips. */
  datatype Admission = Admission(at: int, asProbe: bool, episode: nat, tripsBefore: nat, fate: Fate)

  datatype System = System(now: int, breaker: State, calls: seq<Admission>, trips: seq<int>, episode: nat)

  /** One atomic step. `Abandon` is a call that ends without recording anything:
      `except Exception` does not cover cancellation. */
  datatype Action = Tick(d: nat) | Enter | Fail(i: nat) | Succeed(i: nat) | Abandon(i: nat)

  predicate Enabled(s: System, a: Action) {
    match a
    case Tick(_) => true
    case Enter => true
    case Fail(i) => i < |s.calls| && s.calls[i].fate == Outstanding
    case Succeed(i) => i < |s.calls| && s.calls[i].fate == Outstanding
    case Abandon(i) => i < |s.calls| && s.calls[i].fate == Outstanding
  }

  function Next(c: Config, s: System, a: Action): System
    requires Enabled(s, a)
  {
    match a
    case Tick(d) => s.(now := s.now + d)
    case Enter =>
      var b := Before(c, s.breaker, s.now);
      var begins := s.breaker.circuit == OPEN && b.circuit == HALF_OPEN;
      var episode := if begins then s.episode + 1 else s.episode;
      if Admits(c, s.breaker, s.now)
      then s.(breaker := b, episode := episode,
              calls := s.calls + [Admission(s.now, b.circuit == HALF_OPEN, episode, |s.trips|, Outstanding)])
      else s.(breaker := b, episode := episode)
    case Fail(i) =>
      s.(breaker := Failure(c, s.breaker, s.now),
         calls := s.calls[i := s.calls[i].(fate := Reported)],
         trips := if Trips(c, s.breaker, s.now) then s.trips + [s.now] else s.trips)
    case Succeed(i) =>
      s.(breaker := Success(s.breaker), calls := s.calls[i := s.calls[i].(fate := Reported)])
    case Abandon(i) => s.(calls := s.calls[i := s.calls[i].(fate := Abandoned)])
  }

  predicate Step(c: Config, s: System, a: Action, t: System) {
    Enabled(s, a) && t == Next(c, s, a)
  }

  predicate Run(c: Config, states: seq<System>, acts: seq<Action>) {
    && |states| == |acts| + 1 && states[0] == System(0, START, [], [], 0)
    && forall k :: 0 <= k < |acts| ==> Step(c, states[k], acts[k], states[k + 1])
  }

  ghost predicate CooldownInv(c: Config, s: System) {
    && (forall k :: 0 <= k < |s.trips| ==> s.trips[k] <= s.now)
    && (s.breaker.circuit == OPEN ==> forall k :: 0 <= k < |s.trips| ==> s.trips[k] <= s.breaker.openedAt)
    && (s.breaker.circuit != OPEN ==> forall k :: 0 <= k < |s.trips| ==> s.trips[k] + c.cooldown <= s.now)
    && (forall i :: 0 <= i < |s.calls| ==> s.calls[i].tripsBefore <= |s.trips|)
    && (forall i, k :: 0 <= i < |s.calls| && 0 <= k < s.calls[i].tripsBefore ==>
                         s.trips[k] + c.cooldown <= s.calls[i].at)
  }

  /** Each HALF_OPEN episode is begun by the very call it admits. */
  ghost predicate ProbeInv(s: System) {
    && (forall i :: 0 <= i < |s.calls| ==> s.calls[i].episode <= s.episode)
    && (forall i, j :: 0 <= i < j < |s.calls| && s.calls[i].asProbe && s.calls[j].asProbe ==>
                         s.calls[i].episode < s.calls[j].episode)
    && (s.breaker.circuit == HALF_OPEN ==>
          && s.breaker.probe
          && exists i :: 0 <= i < |s.calls| && IsCurrentProbe(s, i))
  }

  // Call i was admitted in the present episode and has not reported.
  predicate IsCurrentProbe(s: System, i: nat)
    requires i < |s.calls|
  {
    s.calls[i].asProbe && s.calls[i].episode == s.episode && s.calls[i].fate != Reported
  }

  lemma CooldownStep(c: Config, s: System, a: Action)
    requires CooldownInv(c, s) && Enabled(s, a)
    ensures CooldownInv(c, Next(c, s, a))
  {
  }

  lemma ProbeStep(c: Config, s: System, a: Action)
    requires ProbeInv(s) && Enabled(s, a)
    ensures ProbeInv(Next(c, s, a))
  {
    var t := Next(c, s, a);
    if t.breaker.circuit == HALF_OPEN {
      if a.Enter? && s.breaker.circuit == OPEN {
        assert IsCurrentProbe(t, |s.calls|);
      } else {
        var i :| 0 <= i < |s.calls| && IsCurrentProbe(s, i);
        assert IsCurrentProbe(t, i);
      }
    }
  }

  lemma {:induction false} RunInv(c: Config, states: seq<System>, acts: seq<Action>, n: nat)
    requires Run(c, states, acts) && n < |states|
    ensures CooldownInv(c, states[n]) && ProbeInv(states[n])
  {
    if n > 0 {
      RunInv(c, states, acts, n - 1);
      assert Step(c, states[n - 1], acts[n - 1], states[n]);
      CooldownStep(c, states[n - 1], acts[n - 1]);
      ProbeStep(c, states[n - 1], acts[n - 1]);
    }
  }

  /** No call is admitted less than a cooldown after any earlier trip, and two
      calls admitted while HALF_OPEN belong to different episodes. */
  lemma AdmissionSafety(c: Config, states: seq<System>, acts: seq<Action>, n: nat)
    requires Run(c, states, acts) && n < |states|
    ensures forall i, k | 0 <= i < |states[n].calls| && 0 <= k < states[n].calls[i].tripsBefore ::
              k < |states[n].trips| && states[n].trips[k] + c.cooldown <= states[n].calls[i].at
    ensures forall i, j | 0 <= i < j < |states[n].calls| ::
              states[n].calls[i].asProbe && states[n].calls[j].asProbe ==>
                states[n].calls[i].episode != states[n].calls[j].episode
  {
    RunInv(c, states, acts, n);
  }

  // ------------------------------------------------------------------
  // Overlapping calls refine the full history of what was reported
  // ------------------------------------------------------------------

  /** What happened, in order: calls let through and outcomes reported. */
  datatype Event = Entered(at: int) | FailedAt(at: int) | SucceededAt(at: int)

  // What one step adds to the log: a refused call, a tick and an abandoned call add nothing.
  function Logged(s: System, a: Action, t: System): seq<Event> {
    match a
    case Tick(_) => []
    case Abandon(_) => []
    case Enter => if |s.calls| < |t.calls| then [Entered(s.now)] else []
    case Fail(_) => [FailedAt(s.now)]
    case Succeed(_) => [SucceededAt(s.now)]
  }

  function Log(states: seq<System>, acts: seq<Action>, n: nat): seq<Event>
    requires n <= |acts| < |states|
  {
    if n == 0 then [] else Log(states, acts, n - 1) + Logged(states[n - 1], acts[n - 1], states[n])
  }

  // A call was let through after event l, and a success reported after that.
  predicate RecoveredSince(log: seq<Event>, l: int) {
    exists a, k :: l < a < k < |log| && 0 <= a && log[a].Entered? && log[k].SucceededAt?
  }

  predicate EnteredSince(log: seq<Event>, l: int) {
    exists a :: l < a < |log| && 0 <= a && log[a].Entered?
  }

  // A call let through after the last trip is out and nothing has recovered yet.
  predicate Probing(c: Config, log: seq<Event>)
    decreases |log|, 2
  {
    LastTrip(c, log).Some? && EnteredSince(log, LastTrip(c, log).value) && !RecoveredSince(log, LastTrip(c, log).value)
  }

  // Closed from the start, or recovered since the last trip.
  predicate Recovered(c: Config, log: seq<Event>) {
    LastTrip(c, log).Some? ==> RecoveredSince(log, LastTrip(c, log).value)
  }

  // The last `threshold` of these failures lie within one window. (A threshold
  // below one asks for nothing.)
  predicate Crowded(c: Config, failures: seq<int>)
    requires failures != []
  {
    var n := |failures| - c.failureThreshold;
    c.failureThreshold < 1 || (0 <= n && failures[|failures| - 1] - failures[n] <= c.window)
  }

  /** The failures reported since the last success or trip, whatever the state of
      the breaker at the time; none is ever forgotten. */
  function Strikes(c: Config, log: seq<Event>): seq<int>
    decreases |log|, 0
  {
    if log == [] then []
    else
      var rest := log[..|log| - 1];
      match log[|log| - 1]
      case Entered(_) => Strikes(c, rest)
      case SucceededAt(_) => []
      case FailedAt(at) => if FailureTrips(c, rest, at) then [] else Strikes(c, rest) + [at]
  }

  /** A failure reported after `log` trips while a probe is out, or when it is the
      last of `threshold` failures within one window. */
  predicate FailureTrips(c: Config, log: seq<Event>, at: int)
    decreases |log|, 3
  {
    Probing(c, log) || Crowded(c, Strikes(c, log) + [at])
  }

  // The last event that tripped the breaker.
  function LastTrip(c: Config, log: seq<Event>): (l: Option<nat>)
    ensures l.Some? ==> l.value < |log|
    decreases |log|, 1
  {
    if log == [] then None
    else if log[|log| - 1].FailedAt? && FailureTrips(c, log[..|log| - 1], log[|log| - 1].at) then Some(|log| - 1)
    else LastTrip(c, log[..|log| - 1])
  }

  /** The specification of admission: closed, or a cooldown after the last trip
      with no call let through since. */
  predicate HistoryAdmits(c: Config, log: seq<Event>, now: int) {
    Recovered(c, log) || (!Probing(c, log) && log[LastTrip(c, log).value].at + c.cooldown <= now)
  }

  /** How a breaker state represents the log at time `now`. */
  ghost predicate Remembers(c: Config, s: State, log: seq<Event>, now: int) {
    && Keeps(c, Strikes(c, log), s.failures, now)
    && (s.circuit == CLOSED <==> Recovered(c, log))
    && (s.circuit == HALF_OPEN <==> Probing(c, log))
    && (s.circuit == HALF_OPEN ==> s.probe)
    && (s.circuit == OPEN ==> s.openedAt == log[LastTrip(c, log).value].at)
  }

  lemma StrikesGrow(c: Config, log: seq<Event>, e: Event)
    ensures Strikes(c, log + [e]) ==
            if e.Entered? then Strikes(c, log)
            else if e.SucceededAt? || FailureTrips(c, log, e.at) then []
            else Strikes(c, log) + [e.at]
    ensures LastTrip(c, log + [e]) ==
            if e.FailedAt? && FailureTrips(c, log, e.at) then Some(|log|) else LastTrip(c, log)
  {
    assert (log + [e])[..|log|] == log;
  }

  // Of a later event, only a success after an admission counts as a recovery.
  lemma SinceGrows(log: seq<Event>, e: Event, l: int)
    requires -1 <= l < |log|
    ensures EnteredSince(log + [e], l) <==> EnteredSince(log, l) || e.Entered?
    ensures RecoveredSince(log + [e], l) <==> RecoveredSince(log, l) || (e.SucceededAt? && EnteredSince(log, l))
  {
    var grown := log + [e];
    if EnteredSince(log, l) {
      var a :| l < a < |log| && 0 <= a && log[a].Entered?;
      assert grown[a].Entered?;
      assert e.SucceededAt? ==> grown[|log|].SucceededAt?;
    }
    if e.Entered? {
      assert grown[|log|].Entered?;
    }
    if RecoveredSince(log, l) {
      var a, k :| l < a < k < |log| && 0 <= a && log[a].Entered? && log[k].SucceededAt?;
      assert grown[a].Entered? && grown[k].SucceededAt?;
    }
    if a, k :| l < a < k < |grown| && 0 <= a && grown[a].Entered? && grown[k].SucceededAt? {
      assert log[a].Entered?;
      assert k < |log| ==> log[k].SucceededAt?;
    }
    if a :| l < a < |grown| && 0 <= a && grown[a].Entered? {
      assert a < |log| ==> log[a].Entered?;
    }
  }

  lemma NothingSince(log: seq<Event>)
    ensures !EnteredSince(log, |log| - 1) && !RecoveredSince(log, |log| - 1)
  {
  }

  // The pruned list reaches the threshold exactly when the unpruned one is crowded.
  lemma CrowdedIffKept(c: Config, all: seq<int>, kept: seq<int>, now: int)
    requires Keeps(c, all, kept, now)
    ensures Crowded(c, all + [now]) <==> |Prune(kept + [now], now, c.window)| >= c.failureThreshold
  {
    var k := PruneGrown(all, kept, now, now, c.window);
  }

  // In any state a failure trips exactly as the full history says.
  lemma OverlapFailure(c: Config, s: State, log: seq<Event>, now: int)
    requires Remembers(c, s, log, now)
    ensures Trips(c, s, now) <==> FailureTrips(c, log, now)
    ensures !Trips(c, s, now) ==> Keeps(c, Strikes(c, log) + [now], Prune(s.failures + [now], now, c.window), now)
  {
    CrowdedIffKept(c, Strikes(c, log), s.failures, now);
    if !Trips(c, s, now) {
      KeepsGrown(c, Strikes(c, log), s.failures, now, now);
    }
  }

  lemma RememberFailure(c: Config, s: State, log: seq<Event>, now: int)
    requires Remembers(c, s, log, now)
    ensures Remembers(c, Failure(c, s, now), log + [FailedAt(now)], now)
  {
    var e := FailedAt(now);
    StrikesGrow(c, log, e);
    OverlapFailure(c, s, log, now);
    if Trips(c, s, now) {
      NothingSince(log + [e]);
    } else if LastTrip(c, log).Some? {
      SinceGrows(log, e, LastTrip(c, log).value);
    }
  }

  lemma RememberSuccess(c: Config, s: State, log: seq<Event>, now: int)
    requires Remembers(c, s, log, now)
    ensures Remembers(c, Success(s), log + [SucceededAt(now)], now)
  {
    StrikesGrow(c, log, SucceededAt(now));
    if LastTrip(c, log).Some? {
      SinceGrows(log, SucceededAt(now), LastTrip(c, log).value);
    }
  }

  lemma RememberEnter(c: Config, s: State, log: seq<Event>, now: int)
    requires Remembers(c, s, log, now)
    ensures Admits(c, s, now) <==> HistoryAdmits(c, log, now)
    ensures Remembers(c, Before(c, s, now), if Admits(c, s, now) then log + [Entered(now)] else log, now)
  {
    StrikesGrow(c, log, Entered(now));
    if LastTrip(c, log).Some? {
      SinceGrows(log, Entered(now), LastTrip(c, log).value);
    }
  }

  lemma RememberLater(c: Config, s: State, log: seq<Event>, now: int, later: int)
    requires Remembers(c, s, log, now) && now <= later
    ensures Remembers(c, s, log, later)
  {
  }

  lemma RememberStep(c: Config, s: System, a: Action, log: seq<Event>)
    requires Enabled(s, a) && Remembers(c, s.breaker, log, s.now)
    ensures var t := Next(c, s, a); Remembers(c, t.breaker, log + Logged(s, a, t), t.now)
  {
    match a
    case Tick(d) => RememberLater(c, s.breaker, log, s.now, s.now + d); assert log + [] == log;
    case Abandon(_) => assert log + [] == log;
    case Enter => RememberEnter(c, s.breaker, log, s.now); assert log + [] == log;
    case Fail(_) => RememberFailure(c, s.breaker, log, s.now);
    case Succeed(_) => RememberSuccess(c, s.breaker, log, s.now);
  }

  lemma {:induction false} RunRemembers(c: Config, states: seq<System>, acts: seq<Action>, n: nat)
    requires Run(c, states, acts) && n < |states|
    ensures Remembers(c, states[n].breaker, Log(states, acts, n), states[n].now)
  {
    if n > 0 {
      RunRemembers(c, states, acts, n - 1);
      assert Step(c, states[n - 1], acts[n - 1], states[n]);
      RememberStep(c, states[n - 1], acts[n - 1], Log(states, acts, n - 1));
    }
  }

  /** However the calls overlap, the breaker's state is what the full history of
      admissions and reports says: a call is let through exactly when that history
      admits it, and a failure trips it, in any state and OPEN included, exactly
      when a probe is out or it completes a burst. */
  lemma OverlapsRefineHistory(c: Config, states: seq<System>, acts: seq<Action>, n: nat)
    requires Run(c, states, acts) && n < |acts|
    ensures var log := Log(states, acts, n);
            var s, t := states[n], states[n + 1];
            && (s.breaker.circuit == CLOSED <==> Recovered(c, log))
            && (s.breaker.circuit == HALF_OPEN <==> Probing(c, log))
            && (acts[n].Enter? ==> (|s.calls| < |t.calls| <==> HistoryAdmits(c, log, s.now)))
            && (acts[n].Fail? ==> (|s.trips| < |t.trips| <==> FailureTrips(c, log, s.now)))
            && (acts[n].Fail? && FailureTrips(c, log, s.now) ==> t.breaker.circuit == OPEN && t.breaker.openedAt == s.now)
  {
    RunRemembers(c, states, acts, n);
    assert Step(c, states[n], acts[n], states[n + 1]);
    RememberEnter(c, states[n].breaker, Log(states, acts, n), states[n].now);
    OverlapFailure(c, states[n].breaker, Log(states, acts, n), states[n].now);
  }

  lemma {:induction false} TripsKept(c: Config, states: seq<System>, acts: seq<Action>, m: nat, n: nat)
    requires Run(c, states, acts) && m <= n < |states|
    ensures states[m].trips <= states[n].trips
    decreases n - m
  {
    if m < n {
      TripsKept(c, states, acts, m, n - 1);
      assert Step(c, states[n - 1], acts[n - 1], states[n]);
    }
  }

  /** Whatever the state in which a failure completes a burst or fails a probe, no
      call is let through for a cooldown after it. */
  lemma NoAdmissionInCooldown(c: Config, states: seq<System>, acts: seq<Action>, m: nat, n: nat)
    requires Run(c, states, acts) && m < n < |acts|
    requires acts[m].Fail? && FailureTrips(c, Log(states, acts, m), states[m].now)
    requires acts[n].Enter? && states[n].now < states[m].now + c.cooldown
    ensures states[n + 1].calls == states[n].calls
  {
    OverlapsRefineHistory(c, states, acts, m);
    assert Step(c, states[m], acts[m], states[m + 1]) && Step(c, states[n], acts[n], states[n + 1]);
    TripsKept(c, states, acts, m + 1, n);
    RunInv(c, states, acts, n);
    assert states[n].trips[|states[m].trips|] == states[m].now;
  }

  lemma {:induction false} NothingAbandoned(c: Config, states: seq<System>, acts: seq<Action>, n: nat)
    requires Run(c, states, acts) && n < |states|
    requires forall k :: 0 <= k < |acts| ==> !acts[k].Abandon?
    ensures forall i :: 0 <= i < |states[n].calls| ==> states[n].calls[i].fate != Abandoned
  {
    if n > 0 {
      NothingAbandoned(c, states, acts, n - 1);
      assert Step(c, states[n - 1], acts[n - 1], states[n]);
    }
  }

  /** If every admitted call reports, a HALF_OPEN breaker is always waiting for
      the call admitted in that episode, which is still outstanding. */
  lemma HalfOpenAwaitsItsProbe(c: Config, states: seq<System>, acts: seq<Action>, n: nat) returns (i: nat)
    requires Run(c, states, acts) && n < |states| && states[n].breaker.circuit == HALF_OPEN
    requires forall k :: 0 <= k < |acts| ==> !acts[k].Abandon?
    ensures i < |states[n].calls| && states[n].calls[i].asProbe
    ensures states[n].calls[i].episode == states[n].episode && states[n].calls[i].fate == Outstanding
  {
    RunInv(c, states, acts, n);
    NothingAbandoned(c, states, acts, n);
    i :| 0 <= i < |states[n].calls| && IsCurrentProbe(states[n], i);
  }

  predicate SomeOutstanding(s: System) {
    exists i :: 0 <= i < |s.calls| && s.calls[i].fate == Outstanding
  }

  // `s` can reach `t` by `acts`.
  predicate Leads(c: Config, s: System, acts: seq<Action>, t: System)
    decreases |acts|
  {
    if acts == [] then s == t
    else Enabled(s, acts[0]) && Leads(c, Next(c, s, acts[0]), acts[1..], t)
  }

  predicate AdmitsLater(c: Config, s: System, acts: seq<Action>, t: System) {
    Leads(c, s, acts, t) && |t.calls| > |s.calls|
  }

  lemma {:induction false} Wedged(c: Config, s: System, acts: seq<Action>, t: System)
    requires s.breaker.circuit == HALF_OPEN && s.breaker.probe && !SomeOutstanding(s)
    requires Leads(c, s, acts, t)
    ensures t.breaker == s.breaker && t.calls == s.calls
    decreases |acts|
  {
    if acts != [] {
      Wedged(c, Next(c, s, acts[0]), acts[1..], t);
    }
  }

  /** A HALF_OPEN breaker can ever admit another call exactly when some call is
      still outstanding. A cancelled probe with no other call in flight leaves
      it refusing every call for good, however much time passes. */
  lemma RecoversIffSomeOutstanding(c: Config, s: System)
    requires ProbeInv(s) && s.breaker.circuit == HALF_OPEN
    ensures SomeOutstanding(s) <==>
            exists acts, t :: AdmitsLater(c, s, acts, t)
  {
    if SomeOutstanding(s) {
      var i :| 0 <= i < |s.calls| && s.calls[i].fate == Outstanding;
      var closed := Next(c, s, Succeed(i));
      assert closed.breaker.circuit == CLOSED && |closed.calls| == |s.calls|;
      var t := Next(c, closed, Enter);
      assert Leads(c, t, [], t);
      assert [Succeed(i), Enter][1..] == [Enter] && [Enter][1..] == [];
      assert Leads(c, closed, [Enter], t);
      assert Leads(c, s, [Succeed(i), Enter], t);
      assert AdmitsLater(c, s, [Succeed(i), Enter], t);
    } else {
      forall acts, t | Leads(c, s, acts, t)
        ensures !AdmitsLater(c, s, acts, t)
      {
        Wedged(c, s, acts, t);
      }
    }
  }

  const ONE_STRIKE := Config(1, 60, 30)

  lemma OneFailureTrips(now: int)
    ensures Trips(ONE_STRIKE, START, now)
  {
    assert [now][..0] == [] && Since([now], now - 60) == [now];
    assert START.failures + [now] == [now];
  }

  lemma Tripped(s: System)
    requires s.breaker == START && s.calls == [Admission(0, false, 0, 0, Outstanding)] && s.trips == []
    ensures Next(ONE_STRIKE, s, Fail(0)) ==
            s.(breaker := State(OPEN, [], s.now, false), trips := [s.now],
               calls := [Admission(0, false, 0, 0, Reported)])
  {
    OneFailureTrips(s.now);
  }

  const CANCELLED_PROBE: seq<Action> := [Enter, Fail(0), Tick(30), Enter, Abandon(1)]

  const AFTER_TRIP := System(0, State(OPEN, [], 0, false), [Admission(0, false, 0, 0, Reported)], [0], 0)

  lemma ProbeIsCancelled() returns (t: System)
    ensures Leads(ONE_STRIKE, AFTER_TRIP, [Tick(30), Enter, Abandon(1)], t)
    ensures t.breaker.circuit == HALF_OPEN && !SomeOutstanding(t)
  {
    var due := AFTER_TRIP.(now := 30);
    var probing := System(30, State(HALF_OPEN, [], 0, true), due.calls + [Admission(30, true, 1, 1, Outstanding)], [0], 1);
    t := probing.(calls := due.calls + [Admission(30, true, 1, 1, Abandoned)]);
    LeadsByOne(ONE_STRIKE, probing, Abandon(1), [], t);
    LeadsByOne(ONE_STRIKE, due, Enter, [Abandon(1)], t);
    LeadsByOne(ONE_STRIKE, AFTER_TRIP, Tick(30), [Enter, Abandon(1)], t);
  }

  /** It can come to that: one failure trips the breaker, and the probe after the
      cooldown is cancelled. */
  lemma CancelledProbeWedges() returns (t: System)
    ensures Leads(ONE_STRIKE, System(0, START, [], [], 0), CANCELLED_PROBE, t)
    ensures t.breaker.circuit == HALF_OPEN && !SomeOutstanding(t)
  {
    var s0 := System(0, START, [], [], 0);
    var s1 := s0.(calls := [Admission(0, false, 0, 0, Outstanding)]);
    t := ProbeIsCancelled();
    Tripped(s1);
    LeadsByOne(ONE_STRIKE, s1, Fail(0), [Tick(30), Enter, Abandon(1)], t);
    LeadsByOne(ONE_STRIKE, s0, Enter, [Fail(0), Tick(30), Enter, Abandon(1)], t);
  }

  lemma LeadsByOne(c: Config, s: System, a: Action, rest: seq<Action>, t: System)
    requires Enabled(s, a) && Leads(c, Next(c, s, a), rest, t)
    ensures Leads(c, s, [a] + rest, t)
  {
    assert ([a] + rest)[1..] == rest;
  }
}
