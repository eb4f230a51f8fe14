/** At-most-once execution of an effect per key (`guard.py`, `repositories/
    idempotency.py`). The key is the table's primary key, so it is claimed once
    over all tenants; reads and the final update also filter by tenant. */
module IdempotencyGuard {
  import opened Common

  // A JSON result; `Null` is Python's None.
  datatype Value = Null | Data(text: string)

  datatype Row = Row(tenant: string, result: Option<Value>, expiresAt: int)

  // IdempotencyRepository.check on the row of one key: a stored null reads as "no result yet".
  function Cached(row: Option<Row>, tenant: string, now: int): Option<Value> {
    if row.Some? && row.value.tenant == tenant && now < row.value.expiresAt
       && row.value.result.Some? && row.value.result.value != Null
    then row.value.result
    else None
  }

  // INSERT ... ON CONFLICT (key) DO NOTHING: an expired row still conflicts.
  function Claimed(row: Option<Row>, tenant: string, now: int, ttl: int): Option<Row> {
    if row.Some? then row else Some(Row(tenant, None, now + ttl))
  }

  // UPDATE ... WHERE key AND tenant_id
  function Completed(row: Option<Row>, tenant: string, result: Value): Option<Row> {
    if row.Some? && row.value.tenant == tenant then Some(row.value.(result := Some(result))) else row
  }

  class IdempotencyRepository {
    var now: int
    var rows: map<string, Row>

    function RowOf(key: string): Option<Row>
      reads this
    {
      if key in rows then Some(rows[key]) else None
    }

    constructor (now: int)
      ensures this.now == now && forall k :: RowOf(k) == None
    {
      this.now := now;
      rows := map[];
    }

    method Check(tenant: string, key: string) returns (r: Option<Value>)
      ensures r == Cached(RowOf(key), tenant, now)
    {
      r := Cached(RowOf(key), tenant, now);
    }

    method Claim(tenant: string, key: string, ttl: int) returns (claimed: bool)
      modifies this
      ensures claimed == old(RowOf(key).None?)
      ensures RowOf(key) == old(Claimed(RowOf(key), tenant, now, ttl)) && now == old(now)
      ensures forall k :: k != key ==> RowOf(k) == old(RowOf(k))
    {
      claimed := key !in rows;
      if claimed {
        rows := rows[key := Row(tenant, None, now + ttl)];
      }
    }

    method Complete(tenant: string, key: string, result: Value)
      modifies this
      ensures RowOf(key) == old(Completed(RowOf(key), tenant, result)) && now == old(now)
      ensures forall k :: k != key ==> RowOf(k) == old(RowOf(k))
    {
      if key in rows && rows[key].tenant == tenant {
        rows := rows[key := rows[key].(result := Some(result))];
      }
    }
  }

  datatype Outcome = Returned(value: Value) | Raised | TimedOut

  /** What other callers and the clock do while this caller polls: `views(k)` is
      what its k-th check finds, `clock(k)` its k-th look at the clock. */
  datatype Surroundings = Surroundings(clock: nat -> int, views: nat -> Option<Value>)

  // Round k of the poll loop begins before the deadline and finds nothing.
  predicate Waits(s: Surroundings, deadline: int, k: nat) {
    s.clock(k) < deadline && s.views(k).None?
  }

  // The loop ends in its first round that does not wait: on time with what it finds, or too late.
  predicate PollEnds(s: Surroundings, deadline: int, rounds: nat, r: Outcome) {
    && (forall k :: 0 <= k < rounds ==> Waits(s, deadline, k))
    && !Waits(s, deadline, rounds)
    && r == if s.clock(rounds) < deadline then Returned(s.views(rounds).value) else TimedOut
  }

  ghost predicate PollGives(s: Surroundings, deadline: int, r: Outcome) {
    exists rounds: nat :: PollEnds(s, deadline, rounds, r)
  }

  // That leaves one outcome.
  lemma PollIsDetermined(s: Surroundings, deadline: int, a: Outcome, b: Outcome)
    requires PollGives(s, deadline, a) && PollGives(s, deadline, b)
    ensures a == b
  {
    var m: nat :| PollEnds(s, deadline, m, a);
    var n: nat :| PollEnds(s, deadline, n, b);
    assert m < n ==> Waits(s, deadline, m);
    assert n < m ==> Waits(s, deadline, n);
  }

  class IdempotencyGuard {
    const repo: IdempotencyRepository
    const pollTimeout: int

    constructor (repo: IdempotencyRepository, pollTimeout: int)
      ensures this.repo == repo && this.pollTimeout == pollTimeout
    {
      this.repo := repo;
      this.pollTimeout := pollTimeout;
    }

    // The loop after a lost claim; `enough` rounds outlast the deadline.
    method Poll(s: Surroundings, deadline: int, ghost enough: nat) returns (r: Outcome, rounds: nat)
      requires deadline <= s.clock(enough)
      ensures PollEnds(s, deadline, rounds, r)
    {
      rounds := 0;
      while s.clock(rounds) < deadline
        invariant rounds <= enough
        invariant forall k :: 0 <= k < rounds ==> Waits(s, deadline, k)
        decreases enough - rounds
      {
        if s.views(rounds).Some? {
          return Returned(s.views(rounds).value), rounds;
        }
        rounds := rounds + 1;
      }
      r := TimedOut;
    }

    /** One call, with no other caller acting before it polls. `effect` is what
        the effect function would produce, None if it raises. */
    method ExecuteOnce(tenant: string, key: string, ttl: int, effect: Option<Value>, s: Surroundings,
                       ghost enough: nat)
      returns (r: Outcome, ran: bool)
      requires repo.now + pollTimeout <= s.clock(enough)
      modifies repo
      ensures repo.now == old(repo.now) && forall k :: k != key ==> repo.RowOf(k) == old(repo.RowOf(k))
      ensures ran <==> old(repo.RowOf(key).None?)
      ensures !ran ==> repo.RowOf(key) == old(repo.RowOf(key))
      ensures ran ==> repo.RowOf(key) == Some(Row(tenant, effect, repo.now + ttl))
      ensures ran ==> r == if effect.Some? then Returned(effect.value) else Raised
      ensures old(Cached(repo.RowOf(key), tenant, repo.now)).Some? ==>
                r == Returned(old(Cached(repo.RowOf(key), tenant, repo.now)).value)
      ensures !ran && old(Cached(repo.RowOf(key), tenant, repo.now)).None? ==>
                PollGives(s, repo.now + pollTimeout, r)
    {
      var cached := repo.Check(tenant, key);
      if cached.Some? {
        return Returned(cached.value), false;
      }
      ran := repo.Claim(tenant, key, ttl);
      if ran {
        if effect.None? {
          return Raised, true;
        }
        repo.Complete(tenant, key, effect.value);
        return Returned(effect.value), true;
      }
      var rounds;
      r, rounds := Poll(s, repo.now + pollTimeout, enough);
    }
  }

  // ------------------------------------------------------------------
  // Any number of concurrent callers on one key, and the clean-up of its row
  // ------------------------------------------------------------------

  // `claim` numbers the successful claims of the key.
  datatype Phase =
    | Arrived
    | NotCached
    | Executing(claim: nat)
    | Finished(claim: nat, result: Value)      // the effect is done, its result not yet stored
    | Polling(deadline: int)
    | Over(outcome: Outcome)
    | Crashed

  datatype Caller = Caller(tenant: string, ttl: int, phase: Phase)

  /** One execution of an effect: who ran it, under which claim, and its result
      (None if it raised). */
  datatype Execution = Execution(caller: nat, claim: nat, result: Option<Value>)

  datatype System = System(now: int, row: Option<Row>, claims: nat, callers: seq<Caller>, effects: seq<Execution>)

  /** `Purge` is the background clean-up of expired rows that the schema provides for. */
  datatype Action =
    | Tick(d: nat)
    | Arrive(tenant: string, ttl: int)
    | Check(i: nat)
    | Claim(i: nat)
    | Effect(i: nat, result: Option<Value>)
    | Complete(i: nat)
    | Poll(i: nat)
    | Crash(i: nat)
    | Purge

  predicate Enabled(s: System, a: Action) {
    match a
    case Tick(_) => true
    case Arrive(_, _) => true
    case Check(i) => i < |s.callers| && s.callers[i].phase.Arrived?
    case Claim(i) => i < |s.callers| && s.callers[i].phase.NotCached?
    case Effect(i, _) => i < |s.callers| && s.callers[i].phase.Executing?
    case Complete(i) => i < |s.callers| && s.callers[i].phase.Finished?
    case Poll(i) => i < |s.callers| && s.callers[i].phase.Polling?
    case Crash(i) => i < |s.callers|
    case Purge => s.row.Some? && s.row.value.expiresAt < s.now
  }

  function Goto(s: System, i: nat, p: Phase): System
    requires i < |s.callers|
  {
    s.(callers := s.callers[i := s.callers[i].(phase := p)])
  }

  function Next(s: System, a: Action, pollTimeout: int): System
    requires Enabled(s, a)
  {
    match a
    case Tick(d) => s.(now := s.now + d)
    case Arrive(tenant, ttl) => s.(callers := s.callers + [Caller(tenant, ttl, Arrived)])
    case Check(i) =>
      var cached := Cached(s.row, s.callers[i].tenant, s.now);
      Goto(s, i, if cached.Some? then Over(Returned(cached.value)) else NotCached)
    case Claim(i) =>
      var won := s.row.None?;
      Goto(s, i, if won then Executing(s.claims) else Polling(s.now + pollTimeout))
      .(row := Claimed(s.row, s.callers[i].tenant, s.now, s.callers[i].ttl), claims := if won then s.claims + 1 else s.claims)
    case Effect(i, result) =>
      var claim := s.callers[i].phase.claim;
      Goto(s, i, if result.Some? then Finished(claim, result.value) else Over(Raised))
      .(effects := s.effects + [Execution(i, claim, result)])
    case Complete(i) =>
      var v := s.callers[i].phase.result;
      Goto(s, i, Over(Returned(v))).(row := Completed(s.row, s.callers[i].tenant, v))
    case Poll(i) =>
      var cached := Cached(s.row, s.callers[i].tenant, s.now);
      if s.now >= s.callers[i].phase.deadline then Goto(s, i, Over(TimedOut))
      else if cached.Some? then Goto(s, i, Over(Returned(cached.value)))
      else s
    case Crash(i) => Goto(s, i, if s.callers[i].phase.Over? then s.callers[i].phase else Crashed)
    case Purge => s.(row := None)
  }

  const START := System(0, None, 0, [], [])

  predicate Run(states: seq<System>, acts: seq<Action>, pollTimeout: int) {
    && |states| == |acts| + 1 && states[0] == START
    && forall k :: 0 <= k < |acts| ==> Step(states[k], acts[k], states[k + 1], pollTimeout)
  }

  predicate Step(s: System, a: Action, t: System, pollTimeout: int) {
    Enabled(s, a) && t == Next(s, a, pollTimeout)
  }

  function Purges(acts: seq<Action>): nat {
    if acts == [] then 0 else Purges(acts[..|acts| - 1]) + if acts[|acts| - 1].Purge? then 1 else 0
  }

  predicate Winning(p: Phase) { p.Executing? || p.Finished? }

  predicate Returns(s: System, i: nat)
    requires i < |s.callers|
  {
    s.callers[i].phase.Over? && s.callers[i].phase.outcome.Returned?
  }

  // ------------------------------------------------------------------
  // One execution per claim
  // ------------------------------------------------------------------

  // A claim is used by one caller, and for one execution.
  ghost predicate ClaimsOk(s: System) {
    && (forall i :: 0 <= i < |s.callers| && Winning(s.callers[i].phase) ==> s.callers[i].phase.claim < s.claims)
    && (forall i, j :: 0 <= i < j < |s.callers| && Winning(s.callers[i].phase) && Winning(s.callers[j].phase) ==>
                         s.callers[i].phase.claim != s.callers[j].phase.claim)
    && (forall e :: 0 <= e < |s.effects| ==> s.effects[e].claim < s.claims && s.effects[e].caller < |s.callers|)
    && (forall e, f :: 0 <= e < f < |s.effects| ==> s.effects[e].claim != s.effects[f].claim)
    && (forall e, i :: 0 <= e < |s.effects| && 0 <= i < |s.callers| && s.callers[i].phase.Executing? ==>
                         s.effects[e].claim != s.callers[i].phase.claim)
  }

  // Callers that give up a claim, or never had one, disturb nothing.
  lemma ClaimsKept(s: System, t: System)
    requires ClaimsOk(s) && t.claims == s.claims && t.effects == s.effects && |s.callers| <= |t.callers|
    requires forall i :: 0 <= i < |t.callers| && Winning(t.callers[i].phase) ==>
                           i < |s.callers| && t.callers[i].phase == s.callers[i].phase
    ensures ClaimsOk(t)
  {
  }

  lemma ClaimWon(s: System, i: nat, t: System)
    requires ClaimsOk(s) && i < |s.callers| && t.claims == s.claims + 1 && t.effects == s.effects
    requires t.callers == s.callers[i := s.callers[i].(phase := Executing(s.claims))]
    ensures ClaimsOk(t)
  {
  }

  lemma EffectRun(s: System, i: nat, p: Phase, result: Option<Value>, t: System)
    requires ClaimsOk(s) && i < |s.callers| && s.callers[i].phase.Executing? && t.claims == s.claims
    requires p.Over? || (p.Finished? && p.claim == s.callers[i].phase.claim)
    requires t.callers == s.callers[i := s.callers[i].(phase := p)]
    requires t.effects == s.effects + [Execution(i, s.callers[i].phase.claim, result)]
    ensures ClaimsOk(t)
  {
  }

  lemma ClaimsStep(s: System, a: Action, pollTimeout: int)
    requires ClaimsOk(s) && Enabled(s, a)
    ensures ClaimsOk(Next(s, a, pollTimeout))
  {
    var t := Next(s, a, pollTimeout);
    if a.Claim? && s.row.None? {
      ClaimWon(s, a.i, t);
    } else if a.Effect? {
      EffectRun(s, a.i, t.callers[a.i].phase, a.result, t);
    } else {
      ClaimsKept(s, t);
    }
  }

  // Execution e gave v to a caller of this tenant, who may read it if it is not the one that ran it.
  predicate Sourced(s: System, e: nat, i: nat, v: Value)
    requires i < |s.callers|
  {
    && e < |s.effects| && s.effects[e].result == Some(v) && s.effects[e].caller < |s.callers|
    && (s.effects[e].caller == i || (s.callers[s.effects[e].caller].tenant == s.callers[i].tenant && v != Null))
  }

  // A stored result is that of an execution by a caller of the row's tenant.
  predicate StoredBy(s: System, e: nat, v: Value)
    requires s.row.Some?
  {
    && e < |s.effects| && s.effects[e].result == Some(v) && s.effects[e].caller < |s.callers|
    && s.callers[s.effects[e].caller].tenant == s.row.value.tenant
  }

  ghost predicate IsSourced(s: System, i: nat, v: Value)
    requires i < |s.callers|
  {
    exists e: nat :: Sourced(s, e, i, v)
  }

  ghost predicate IsStored(s: System, v: Value)
    requires s.row.Some?
  {
    exists e: nat :: StoredBy(s, e, v)
  }

  // Execution e was caller i's own.
  predicate OwnExecution(s: System, e: nat, i: nat, v: Value) {
    e < |s.effects| && s.effects[e].caller == i && s.effects[e].result == Some(v)
  }

  ghost predicate CallerOk(s: System, i: nat)
    requires i < |s.callers|
  {
    var p := s.callers[i].phase;
    && (p.Finished? ==> exists e: nat :: OwnExecution(s, e, i, p.result))
    && (Returns(s, i) ==> IsSourced(s, i, p.outcome.value))
  }

  /** Every result, stored or returned, is that of an execution. */
  ghost predicate ResultsOk(s: System) {
    && (s.row.Some? && s.row.value.result.Some? ==> IsStored(s, s.row.value.result.value))
    && forall i :: 0 <= i < |s.callers| ==> CallerOk(s, i)
  }

  predicate Grows(s: System, t: System) {
    && s.effects <= t.effects && |s.callers| <= |t.callers|
    && forall i :: 0 <= i < |s.callers| ==> t.callers[i].tenant == s.callers[i].tenant
  }

  lemma StepGrows(s: System, a: Action, pollTimeout: int)
    requires Enabled(s, a)
    ensures Grows(s, Next(s, a, pollTimeout))
  {
  }

  lemma CallerKept(s: System, t: System, i: nat)
    requires Grows(s, t) && i < |s.callers| && t.callers[i].phase == s.callers[i].phase && CallerOk(s, i)
    ensures CallerOk(t, i)
  {
    var p := s.callers[i].phase;
    if p.Finished? {
      var e: nat :| OwnExecution(s, e, i, p.result);
      assert OwnExecution(t, e, i, p.result);
    }
    if Returns(s, i) {
      var e: nat :| Sourced(s, e, i, p.outcome.value);
      assert Sourced(t, e, i, p.outcome.value);
    }
  }

  lemma StoredKept(s: System, t: System, v: Value)
    requires Grows(s, t) && s.row.Some? && t.row.Some? && t.row.value.tenant == s.row.value.tenant && IsStored(s, v)
    ensures IsStored(t, v)
  {
    var e: nat :| StoredBy(s, e, v);
    assert StoredBy(t, e, v);
  }

  // What a caller reads in the row it may return.
  lemma ReadIsSourced(s: System, t: System, i: nat)
    requires ResultsOk(s) && Grows(s, t) && i < |s.callers| && Cached(s.row, s.callers[i].tenant, s.now).Some?
    ensures IsSourced(t, i, Cached(s.row, s.callers[i].tenant, s.now).value)
  {
    var v := Cached(s.row, s.callers[i].tenant, s.now).value;
    var e: nat :| StoredBy(s, e, v);
    assert Sourced(t, e, i, v);
  }

  // The caller that acts ends in order.
  lemma ActorOk(s: System, a: Action, pollTimeout: int)
    requires ResultsOk(s) && Enabled(s, a) && !a.Tick? && !a.Arrive? && !a.Purge?
    ensures CallerOk(Next(s, a, pollTimeout), a.i)
  {
    var t := Next(s, a, pollTimeout);
    StepGrows(s, a, pollTimeout);
    assert CallerOk(s, a.i);
    match a
    case Effect(i, result) =>
      assert result.Some? ==> OwnExecution(t, |s.effects|, i, result.value);
    case Complete(i) =>
      var e: nat :| OwnExecution(s, e, i, s.callers[i].phase.result);
      assert Sourced(t, e, i, s.callers[i].phase.result);
    case Check(i) =>
      if Cached(s.row, s.callers[i].tenant, s.now).Some? { ReadIsSourced(s, t, i); }
    case Poll(i) =>
      if t.callers[i].phase == s.callers[i].phase { CallerKept(s, t, i); }
      else if Cached(s.row, s.callers[i].tenant, s.now).Some? { ReadIsSourced(s, t, i); }
    case Crash(i) =>
      if s.callers[i].phase.Over? { CallerKept(s, t, i); }
    case Claim(_) =>
  }

  lemma RowOk(s: System, a: Action, pollTimeout: int)
    requires ResultsOk(s) && Enabled(s, a)
    ensures var t := Next(s, a, pollTimeout);
            t.row.Some? && t.row.value.result.Some? ==> IsStored(t, t.row.value.result.value)
  {
    var t := Next(s, a, pollTimeout);
    StepGrows(s, a, pollTimeout);
    if a.Complete? && t.row != s.row {
      assert CallerOk(s, a.i);
      var v := s.callers[a.i].phase.result;
      var e: nat :| OwnExecution(s, e, a.i, v);
      assert StoredBy(t, e, v);
    } else if t.row.Some? && t.row == s.row && t.row.value.result.Some? {
      StoredKept(s, t, t.row.value.result.value);
    }
  }

  lemma ResultsStep(s: System, a: Action, pollTimeout: int)
    requires ResultsOk(s) && Enabled(s, a)
    ensures ResultsOk(Next(s, a, pollTimeout))
  {
    var t := Next(s, a, pollTimeout);
    StepGrows(s, a, pollTimeout);
    RowOk(s, a, pollTimeout);
    forall i | 0 <= i < |t.callers|
      ensures CallerOk(t, i)
    {
      if !a.Tick? && !a.Arrive? && !a.Purge? && a.i == i {
        ActorOk(s, a, pollTimeout);
      } else if i < |s.callers| {
        CallerKept(s, t, i);
      }
    }
  }

  // A row is the mark of the latest claim.
  lemma {:induction false} RunInv(states: seq<System>, acts: seq<Action>, pollTimeout: int, n: nat)
    requires Run(states, acts, pollTimeout) && n < |states|
    ensures ClaimsOk(states[n]) && ResultsOk(states[n])
    ensures states[n].claims == Purges(acts[..n]) + if states[n].row.Some? then 1 else 0
  {
    if n > 0 {
      RunInv(states, acts, pollTimeout, n - 1);
      assert Step(states[n - 1], acts[n - 1], states[n], pollTimeout);
      ClaimsStep(states[n - 1], acts[n - 1], pollTimeout);
      ResultsStep(states[n - 1], acts[n - 1], pollTimeout);
      assert acts[..n][..n - 1] == acts[..n - 1];
    }
  }

  function Below(n: nat): set<nat> {
    if n == 0 then {} else Below(n - 1) + {n - 1}
  }

  lemma {:induction false} BelowMeans(n: nat)
    ensures |Below(n)| == n && forall k: nat :: k in Below(n) <==> k < n
  {
    if n > 0 {
      BelowMeans(n - 1);
    }
  }

  lemma {:induction false} DistinctImage(effects: seq<Execution>, below: set<nat>)
    requires forall e :: 0 <= e < |effects| ==> effects[e].claim in below
    requires forall e, f :: 0 <= e < f < |effects| ==> effects[e].claim != effects[f].claim
    ensures |effects| <= |below|
  {
    if effects != [] {
      var n := |effects| - 1;
      DistinctImage(effects[..n], below - {effects[n].claim});
    }
  }

  /** In every interleaving, clean-up included, no claim leads to more than one
      execution, and executions number at most one more than the rows cleaned
      up. Every caller that returns has the value of an execution that did not
      raise: its own, or one by a caller of its tenant whose result is not None. */
  lemma EffectOncePerClaim(states: seq<System>, acts: seq<Action>, pollTimeout: int, n: nat)
    requires Run(states, acts, pollTimeout) && n < |states|
    ensures forall e, f | 0 <= e < f < |states[n].effects| :: states[n].effects[e].claim != states[n].effects[f].claim
    ensures |states[n].effects| <= Purges(acts[..n]) + 1
    ensures forall i | 0 <= i < |states[n].callers| && Returns(states[n], i) ::
              IsSourced(states[n], i, states[n].callers[i].phase.outcome.value)
  {
    RunInv(states, acts, pollTimeout, n);
    BelowMeans(states[n].claims);
    DistinctImage(states[n].effects, Below(states[n].claims));
    forall i | 0 <= i < |states[n].callers| && Returns(states[n], i)
      ensures IsSourced(states[n], i, states[n].callers[i].phase.outcome.value)
    {
      assert CallerOk(states[n], i);
    }
  }

  lemma {:induction false} NoPurges(acts: seq<Action>, n: nat)
    requires n <= |acts| && forall k :: 0 <= k < n ==> !acts[k].Purge?
    ensures Purges(acts[..n]) == 0
  {
    if n > 0 {
      NoPurges(acts, n - 1);
      assert acts[..n][..n - 1] == acts[..n - 1];
    }
  }

  /** As long as no row has been cleaned up the effect runs at most once, whether
      or not the row has expired, and every caller that returns has the value of
      that one execution: if it raised, none returns. */
  lemma EffectAtMostOnce(states: seq<System>, acts: seq<Action>, pollTimeout: int, n: nat)
    requires Run(states, acts, pollTimeout) && n < |states| && forall k :: 0 <= k < n ==> !acts[k].Purge?
    ensures |states[n].effects| <= 1
    ensures forall i | 0 <= i < |states[n].callers| && Returns(states[n], i) ::
              |states[n].effects| == 1 && Sourced(states[n], 0, i, states[n].callers[i].phase.outcome.value)
  {
    NoPurges(acts, n);
    EffectOncePerClaim(states, acts, pollTimeout, n);
    forall i | 0 <= i < |states[n].callers| && Returns(states[n], i)
      ensures |states[n].effects| == 1 && Sourced(states[n], 0, i, states[n].callers[i].phase.outcome.value)
    {
      var e: nat :| Sourced(states[n], e, i, states[n].callers[i].phase.outcome.value);
      assert e == 0;
    }
  }

  // ------------------------------------------------------------------
  // What can still happen
  // ------------------------------------------------------------------

  // `s` can reach `t` by `acts`.
  predicate Leads(s: System, acts: seq<Action>, t: System, pollTimeout: int)
    decreases |acts|
  {
    if acts == [] then s == t
    else Enabled(s, acts[0]) && Leads(Next(s, acts[0], pollTimeout), acts[1..], t, pollTimeout)
  }

  predicate PurgeFree(acts: seq<Action>) { Purge !in acts }

  lemma LeadsByOne(s: System, a: Action, rest: seq<Action>, t: System, pollTimeout: int)
    requires Enabled(s, a) && Leads(Next(s, a, pollTimeout), rest, t, pollTimeout)
    ensures Leads(s, [a] + rest, t, pollTimeout)
  {
    assert ([a] + rest)[1..] == rest;
  }

  lemma {:induction false} LeadsOn(s: System, a: seq<Action>, t: System, b: seq<Action>, u: System, pollTimeout: int)
    requires Leads(s, a, t, pollTimeout) && Leads(t, b, u, pollTimeout)
    ensures Leads(s, a + b, u, pollTimeout)
    decreases |a|
  {
    if a == [] {
      assert a + b == b;
    } else {
      LeadsOn(Next(s, a[0], pollTimeout), a[1..], t, b, u, pollTimeout);
      assert (a + b)[1..] == a[1..] + b;
    }
  }

  // Caller i has returned in t, and had not in s.
  predicate NewlyReturns(s: System, t: System, i: nat) {
    i < |t.callers| && Returns(t, i) && !(i < |s.callers| && Returns(s, i))
  }

  predicate ReturnsLater(s: System, acts: seq<Action>, t: System, i: nat, pollTimeout: int) {
    Leads(s, acts, t, pollTimeout) && PurgeFree(acts) && NewlyReturns(s, t, i)
  }

  predicate RunsLater(s: System, acts: seq<Action>, t: System, pollTimeout: int) {
    Leads(s, acts, t, pollTimeout) && PurgeFree(acts) && |s.effects| < |t.effects|
  }

  predicate SomeWinning(s: System) {
    exists i :: 0 <= i < |s.callers| && Winning(s.callers[i].phase)
  }

  predicate SomeExecuting(s: System) {
    exists i :: 0 <= i < |s.callers| && s.callers[i].phase.Executing?
  }

  /** Of use to nobody: the row is there, nobody is going to store a result in
      it, and what it holds cannot be read, be it that it has no result, that the
      result is None, or that it has expired. */
  predicate Poisoned(s: System) {
    s.row.Some? && !SomeWinning(s) && Cached(s.row, s.row.value.tenant, s.now).None?
  }

  lemma PoisonedStep(s: System, a: Action, pollTimeout: int)
    requires Poisoned(s) && Enabled(s, a) && !a.Purge?
    ensures var t := Next(s, a, pollTimeout);
            && Poisoned(t) && t.effects == s.effects && |s.callers| <= |t.callers|
            && forall i :: 0 <= i < |t.callers| && Returns(t, i) ==> i < |s.callers| && Returns(s, i)
  {
    var t := Next(s, a, pollTimeout);
    forall i | 0 <= i < |t.callers|
      ensures !Winning(t.callers[i].phase)
      ensures Returns(t, i) ==> i < |s.callers| && Returns(s, i)
    {
      assert i < |s.callers| ==> !Winning(s.callers[i].phase);
    }
  }

  lemma {:induction false} PoisonedStays(s: System, acts: seq<Action>, t: System, pollTimeout: int)
    requires Poisoned(s) && Leads(s, acts, t, pollTimeout) && PurgeFree(acts)
    ensures Poisoned(t) && t.effects == s.effects && |s.callers| <= |t.callers|
    ensures forall i :: 0 <= i < |t.callers| && Returns(t, i) ==> i < |s.callers| && Returns(s, i)
    decreases |acts|
  {
    if acts != [] {
      PoisonedStep(s, acts[0], pollTimeout);
      PoisonedStays(Next(s, acts[0], pollTimeout), acts[1..], t, pollTimeout);
    }
  }

  // From a free key a new caller can claim, run its effect and return its result.
  lemma FreshCaller(s: System, tenant: string, pollTimeout: int) returns (acts: seq<Action>, t: System)
    requires s.row.None?
    ensures Leads(s, acts, t, pollTimeout) && PurgeFree(acts)
    ensures NewlyReturns(s, t, |s.callers|) && t.callers[|s.callers|].tenant == tenant
    ensures |t.effects| == |s.effects| + 1 && t.effects[|s.effects|].caller == |s.callers|
  {
    var n := |s.callers|;
    var s1 := Next(s, Arrive(tenant, 1), pollTimeout);
    var s2 := Next(s1, Check(n), pollTimeout);
    var s3 := Next(s2, Claim(n), pollTimeout);
    var s4 := Next(s3, Effect(n, Some(Null)), pollTimeout);
    t := Next(s4, Complete(n), pollTimeout);
    LeadsByOne(s4, Complete(n), [], t, pollTimeout);
    LeadsByOne(s3, Effect(n, Some(Null)), [Complete(n)], t, pollTimeout);
    LeadsByOne(s2, Claim(n), [Effect(n, Some(Null))] + [Complete(n)], t, pollTimeout);
    acts := [Claim(n)] + ([Effect(n, Some(Null))] + [Complete(n)]);
    LeadsByOne(s1, Check(n), acts, t, pollTimeout);
    acts := [Check(n)] + acts;
    LeadsByOne(s, Arrive(tenant, 1), acts, t, pollTimeout);
    acts := [Arrive(tenant, 1)] + acts;
  }

  // This tenant has a result of its own there, not None and not expired.
  predicate Readable(row: Option<Row>, tenant: string, now: int) {
    row.Some? && row.value.tenant == tenant && now < row.value.expiresAt && row.value.result.Some? && row.value.result.value.Data?
  }

  // Steps that caller n takes by itself, from its arrival on.
  predicate Own(a: Action, n: nat) {
    match a
    case Arrive(_, _) => true
    case Check(i) => i == n
    case Claim(i) => i == n
    case Effect(i, _) => i == n
    case Complete(i) => i == n
    case _ => false
  }

  /** Where a call stands that nobody has come between, and what it has left:
      it returned a readable result, ran its effect on a free key, or polls. */
  predicate CallDone(s: System, t: System, tenant: string, ttl: int, effect: Option<Value>, pollTimeout: int) {
    var n := |s.callers|;
    && |t.callers| == n + 1 && t.callers[..n] == s.callers && t.now == s.now
    && var phase := t.callers[n].phase;
       if Readable(s.row, tenant, s.now) then
         t.row == s.row && t.effects == s.effects && phase == Over(Returned(s.row.value.result.value))
       else if s.row.None? then
         && t.row == Some(Row(tenant, effect, s.now + ttl)) && t.effects == s.effects + [Execution(n, s.claims, effect)]
         && phase == Over(if effect.Some? then Returned(effect.value) else Raised)
       else t.row == s.row && t.effects == s.effects && phase == Polling(s.now + pollTimeout)
  }

  /** The steps of one call with nothing between them come to what the method
      `ExecuteOnce` does, up to its poll loop. */
  lemma UninterruptedCall(s: System, tenant: string, ttl: int, effect: Option<Value>, pollTimeout: int)
    returns (acts: seq<Action>, t: System)
    ensures Leads(s, acts, t, pollTimeout) && forall a :: a in acts ==> Own(a, |s.callers|)
    ensures CallDone(s, t, tenant, ttl, effect, pollTimeout)
  {
    var n := |s.callers|;
    var s1 := Next(s, Arrive(tenant, ttl), pollTimeout);
    var s2 := Next(s1, Check(n), pollTimeout);
    if Readable(s.row, tenant, s.now) {
      acts, t := [], s2;
    } else if s.row.Some? {
      t := Next(s2, Claim(n), pollTimeout);
      LeadsByOne(s2, Claim(n), [], t, pollTimeout);
      acts := [Claim(n)] + [];
    } else {
      acts, t := ClaimAndRun(s2, n, effect, pollTimeout);
    }
    LeadsByOne(s1, Check(n), acts, t, pollTimeout);
    LeadsByOne(s, Arrive(tenant, ttl), [Check(n)] + acts, t, pollTimeout);
    acts := [Arrive(tenant, ttl)] + ([Check(n)] + acts);
  }

  lemma ClaimAndRun(s: System, n: nat, effect: Option<Value>, pollTimeout: int) returns (acts: seq<Action>, t: System)
    requires n < |s.callers| && s.callers[n].phase.NotCached? && s.row.None?
    ensures Leads(s, acts, t, pollTimeout) && forall a :: a in acts ==> Own(a, n)
    ensures t == s.(row := Some(Row(s.callers[n].tenant, effect, s.now + s.callers[n].ttl)), claims := s.claims + 1,
                    effects := s.effects + [Execution(n, s.claims, effect)],
                    callers := s.callers[n := s.callers[n].(phase := Over(if effect.Some? then Returned(effect.value) else Raised))])
  {
    var s1 := Next(s, Claim(n), pollTimeout);
    var s2 := Next(s1, Effect(n, effect), pollTimeout);
    acts, t := [], s2;
    if effect.Some? {
      t := Next(s2, Complete(n), pollTimeout);
      LeadsByOne(s2, Complete(n), [], t, pollTimeout);
      acts := [Complete(n)] + [];
    }
    LeadsByOne(s1, Effect(n, effect), acts, t, pollTimeout);
    LeadsByOne(s, Claim(n), [Effect(n, effect)] + acts, t, pollTimeout);
    acts := [Claim(n)] + ([Effect(n, effect)] + acts);
  }

  // Caller i lost its claim to an existing row at state k.
  predicate LostAt(states: seq<System>, acts: seq<Action>, k: nat, i: nat) {
    k < |acts| && k < |states| && acts[k] == Claim(i) && states[k].row.Some?
  }

  /** A caller polls until the timeout after it lost its claim, and is not timed
      out before. */
  lemma {:induction false} TimeoutIsLate(states: seq<System>, acts: seq<Action>, pollTimeout: int, n: nat, i: nat)
    requires Run(states, acts, pollTimeout) && n < |states| && i < |states[n].callers|
    ensures var p := states[n].callers[i].phase;
            && (p.Polling? ==> exists k :: 0 <= k < n && LostAt(states, acts, k, i) && p.deadline == states[k].now + pollTimeout)
            && (p == Over(TimedOut) ==> exists k :: 0 <= k < n && LostAt(states, acts, k, i) && states[k].now + pollTimeout <= states[n].now)
  {
    if n > 0 {
      var s, t, a := states[n - 1], states[n], acts[n - 1];
      assert Step(s, a, t, pollTimeout);
      if i < |s.callers| {
        TimeoutIsLate(states, acts, pollTimeout, n - 1, i);
        if a == Claim(i) && t.callers[i].phase.Polling? {
          assert LostAt(states, acts, n - 1, i);
        }
      }
    }
  }

  // If caller i polls now, it is on time and finds nothing it may read.
  predicate StillWaits(s: System, a: Action, i: nat, deadline: int) {
    && i < |s.callers|
    && (a == Poll(i) ==> s.now < deadline && !Readable(s.row, s.callers[i].tenant, s.now))
  }

  // Caller i polls now for the last time: too late, or with a result.
  predicate PollsLast(s: System, a: Action, i: nat, deadline: int, p: Phase) {
    && i < |s.callers| && a == Poll(i)
    && if deadline <= s.now then p == Over(TimedOut)
       else Readable(s.row, s.callers[i].tenant, s.now) && p == Over(Returned(s.row.value.result.value))
  }

  lemma PollStep(s: System, a: Action, pollTimeout: int, i: nat)
    requires Enabled(s, a) && i < |s.callers|
    ensures i < |Next(s, a, pollTimeout).callers|
    ensures var p, q := s.callers[i].phase, Next(s, a, pollTimeout).callers[i].phase;
            && (p.Polling? ==> q == Crashed || (q == p && StillWaits(s, a, i, p.deadline)) || PollsLast(s, a, i, p.deadline, q))
            && (p.Over? || p.Crashed? ==> q == p)
  {
  }

  predicate WaitsFrom(states: seq<System>, acts: seq<Action>, m: nat, n: nat, i: nat, deadline: int) {
    n <= |acts| && n <= |states| && forall k :: m <= k < n ==> StillWaits(states[k], acts[k], i, deadline)
  }

  // Poll k is the first that is late or finds a result.
  predicate EndedAt(states: seq<System>, acts: seq<Action>, m: nat, k: nat, i: nat, deadline: int, p: Phase) {
    WaitsFrom(states, acts, m, k, i, deadline) && k < |acts| && k < |states| && PollsLast(states[k], acts[k], i, deadline, p)
  }

  /** In every run a polling caller goes on while it is on time and there is
      nothing it may read, and its first other poll ends it: with the result if it
      is on time, else with a timeout. */
  lemma {:induction false} PollerEnds(states: seq<System>, acts: seq<Action>, pollTimeout: int, m: nat, n: nat, i: nat)
    requires Run(states, acts, pollTimeout) && m <= n < |states|
    requires i < |states[m].callers| && states[m].callers[i].phase.Polling?
    ensures i < |states[n].callers|
    ensures var deadline, p := states[m].callers[i].phase.deadline, states[n].callers[i].phase;
            || p == Crashed
            || (p == Polling(deadline) && WaitsFrom(states, acts, m, n, i, deadline))
            || exists k :: m <= k < n && EndedAt(states, acts, m, k, i, deadline, p)
    decreases n - m
  {
    if m < n {
      PollerEnds(states, acts, pollTimeout, m, n - 1, i);
      assert Step(states[n - 1], acts[n - 1], states[n], pollTimeout);
      PollStep(states[n - 1], acts[n - 1], pollTimeout, i);
      var deadline := states[m].callers[i].phase.deadline;
      if PollsLast(states[n - 1], acts[n - 1], i, deadline, states[n].callers[i].phase)
         && WaitsFrom(states, acts, m, n - 1, i, deadline) {
        assert EndedAt(states, acts, m, n - 1, i, deadline, states[n].callers[i].phase);
      }
    }
  }

  // A caller that holds a claim can finish.
  lemma WinnerFinishes(s: System, i: nat, pollTimeout: int) returns (acts: seq<Action>, t: System)
    requires i < |s.callers| && Winning(s.callers[i].phase)
    ensures Leads(s, acts, t, pollTimeout) && PurgeFree(acts) && NewlyReturns(s, t, i)
  {
    var u := s;
    var first: seq<Action> := [];
    if s.callers[i].phase.Executing? {
      first, u := [Effect(i, Some(Null))], Next(s, Effect(i, Some(Null)), pollTimeout);
      LeadsByOne(s, first[0], [], u, pollTimeout);
    }
    t := Next(u, Complete(i), pollTimeout);
    LeadsByOne(u, Complete(i), [], t, pollTimeout);
    LeadsOn(s, first, u, [Complete(i)], t, pollTimeout);
    acts := first + [Complete(i)];
  }

  // A new caller of the row's tenant can read a readable result.
  lemma ReaderReturns(s: System, pollTimeout: int) returns (acts: seq<Action>, t: System)
    requires s.row.Some? && Cached(s.row, s.row.value.tenant, s.now).Some?
    ensures Leads(s, acts, t, pollTimeout) && PurgeFree(acts) && NewlyReturns(s, t, |s.callers|)
    ensures t.callers[|s.callers|].tenant == s.row.value.tenant
  {
    var n, arrival := |s.callers|, Arrive(s.row.value.tenant, 1);
    var u := Next(s, arrival, pollTimeout);
    t := Next(u, Check(n), pollTimeout);
    LeadsByOne(u, Check(n), [], t, pollTimeout);
    LeadsByOne(s, arrival, [Check(n)], t, pollTimeout);
    acts := [arrival] + [Check(n)];
  }

  /** Until its row is cleaned up a key is dead, so that no caller present or
      future ever newly returns, exactly when it is poisoned: in any other state
      it is free, or some claimant has yet to finish, or its result can be read. */
  lemma DeadIffPoisoned(s: System, pollTimeout: int)
    ensures (exists acts, t, i: nat :: ReturnsLater(s, acts, t, i, pollTimeout))
            <==> s.row.None? || SomeWinning(s) || Cached(s.row, s.row.value.tenant, s.now).Some?
    ensures Poisoned(s) <==> !(exists acts, t, i: nat :: ReturnsLater(s, acts, t, i, pollTimeout))
  {
    if Poisoned(s) {
      forall acts, t, i: nat | Leads(s, acts, t, pollTimeout) && PurgeFree(acts)
        ensures !ReturnsLater(s, acts, t, i, pollTimeout)
      {
        PoisonedStays(s, acts, t, pollTimeout);
      }
    } else if s.row.None? {
      var acts, t := FreshCaller(s, "", pollTimeout);
      assert ReturnsLater(s, acts, t, |s.callers|, pollTimeout);
    } else if SomeWinning(s) {
      var i: nat :| i < |s.callers| && Winning(s.callers[i].phase);
      var acts, t := WinnerFinishes(s, i, pollTimeout);
      assert ReturnsLater(s, acts, t, i, pollTimeout);
    } else {
      var acts, t := ReaderReturns(s, pollTimeout);
      assert ReturnsLater(s, acts, t, |s.callers|, pollTimeout);
    }
  }

  // Caller i may yet store a result that its tenant's callers can read.
  predicate CanStore(s: System, i: nat, tenant: string) {
    && i < |s.callers| && s.callers[i].tenant == tenant
    && (s.callers[i].phase.Executing? || (s.callers[i].phase.Finished? && s.callers[i].phase.result != Null))
  }

  /** The row is this tenant's and has not expired, and holds a readable result or
      may come to hold one. */
  ghost predicate Promising(s: System, tenant: string) {
    && s.row.Some? && s.row.value.tenant == tenant && s.now < s.row.value.expiresAt
    && (Cached(s.row, tenant, s.now).Some? || exists i: nat :: CanStore(s, i, tenant))
  }

  // A caller of this tenant that arrives after s, and by t has returned.
  predicate NewReturns(s: System, acts: seq<Action>, t: System, i: nat, tenant: string, pollTimeout: int) {
    && Leads(s, acts, t, pollTimeout) && PurgeFree(acts)
    && |s.callers| <= i < |t.callers| && t.callers[i].tenant == tenant && Returns(t, i)
  }

  // A caller of this tenant that arrives after s, and by t has run its effect.
  predicate NewRuns(s: System, acts: seq<Action>, t: System, e: nat, tenant: string, pollTimeout: int) {
    && Leads(s, acts, t, pollTimeout) && PurgeFree(acts)
    && |s.effects| <= e < |t.effects| && |s.callers| <= t.effects[e].caller < |t.callers|
    && t.callers[t.effects[e].caller].tenant == tenant
  }

  // While the row is there, callers from the n-th on win nothing.
  predicate NoneWins(s: System, n: nat) {
    s.row.Some? && forall i :: n <= i < |s.callers| ==> !Winning(s.callers[i].phase)
  }

  lemma {:induction false} NoneWinsOn(s: System, acts: seq<Action>, t: System, n: nat, pollTimeout: int)
    requires NoneWins(s, n) && Leads(s, acts, t, pollTimeout) && PurgeFree(acts)
    ensures NoneWins(t, n) && s.effects <= t.effects
    ensures forall e :: |s.effects| <= e < |t.effects| ==> t.effects[e].caller < n
    decreases |acts|
  {
    if acts != [] {
      var u := Next(s, acts[0], pollTimeout);
      assert |s.effects| < |u.effects| ==> u.effects[|s.effects|].caller < n;
      NoneWinsOn(u, acts[1..], t, n, pollTimeout);
    }
  }

  // None of this tenant's callers from the n-th on has returned, nor will.
  ghost predicate Barred(s: System, n: nat, tenant: string) {
    && NoneWins(s, n) && !Promising(s, tenant)
    && forall i :: n <= i < |s.callers| && s.callers[i].tenant == tenant ==> !Returns(s, i)
  }

  lemma PromiseWasThere(s: System, a: Action, tenant: string, pollTimeout: int)
    requires s.row.Some? && Enabled(s, a) && !a.Purge? && Promising(Next(s, a, pollTimeout), tenant)
    ensures Promising(s, tenant)
  {
    var t := Next(s, a, pollTimeout);
    if Cached(t.row, tenant, t.now).Some? {
      if Cached(s.row, tenant, s.now).None? {
        assert a.Complete?;
        assert CanStore(s, a.i, tenant);
      }
    } else {
      var i: nat :| CanStore(t, i, tenant);
      assert CanStore(s, i, tenant);
    }
  }

  lemma {:induction false} BarredOn(s: System, acts: seq<Action>, t: System, n: nat, tenant: string, pollTimeout: int)
    requires Barred(s, n, tenant) && Leads(s, acts, t, pollTimeout) && PurgeFree(acts)
    ensures Barred(t, n, tenant)
    decreases |acts|
  {
    if acts != [] {
      if Promising(Next(s, acts[0], pollTimeout), tenant) {
        PromiseWasThere(s, acts[0], tenant, pollTimeout);
      }
      BarredOn(Next(s, acts[0], pollTimeout), acts[1..], t, n, tenant, pollTimeout);
    }
  }

  // A result that can be stored is stored, and is then there to be read.
  lemma StoresReadable(s: System, i: nat, tenant: string, pollTimeout: int) returns (acts: seq<Action>, t: System)
    requires s.row.Some? && s.row.value.tenant == tenant && s.now < s.row.value.expiresAt && CanStore(s, i, tenant)
    ensures Leads(s, acts, t, pollTimeout) && PurgeFree(acts)
    ensures t.row.Some? && t.row.value.tenant == tenant && Cached(t.row, tenant, t.now).Some? && |t.callers| == |s.callers|
  {
    var u := s;
    var first: seq<Action> := [];
    if s.callers[i].phase.Executing? {
      first, u := [Effect(i, Some(Data("")))], Next(s, Effect(i, Some(Data(""))), pollTimeout);
      LeadsByOne(s, first[0], [], u, pollTimeout);
    }
    t := Next(u, Complete(i), pollTimeout);
    LeadsByOne(u, Complete(i), [], t, pollTimeout);
    LeadsOn(s, first, u, [Complete(i)], t, pollTimeout);
    acts := first + [Complete(i)];
  }

  lemma PromiseIsKept(s: System, tenant: string, pollTimeout: int) returns (acts: seq<Action>, t: System)
    requires Promising(s, tenant)
    ensures NewReturns(s, acts, t, |s.callers|, tenant, pollTimeout)
  {
    var first: seq<Action>, u := [], s;
    if Cached(s.row, tenant, s.now).None? {
      var i: nat :| CanStore(s, i, tenant);
      first, u := StoresReadable(s, i, tenant, pollTimeout);
    }
    var more;
    more, t := ReaderReturns(u, pollTimeout);
    LeadsOn(s, first, u, more, t, pollTimeout);
    acts := first + more;
  }

  /** What awaits a new caller of a tenant until the row is cleaned up. It can run
      its effect exactly when the key has no row. It can return exactly then, or
      when the row is its own tenant's, has not expired, and holds a readable
      result or may come to. So while another tenant has the row it does neither,
      although the guard promises one execution for each tenant and key. */
  lemma NewCallerIff(s: System, tenant: string, pollTimeout: int)
    ensures (exists acts, t, e: nat :: NewRuns(s, acts, t, e, tenant, pollTimeout)) <==> s.row.None?
    ensures (exists acts, t, i: nat :: NewReturns(s, acts, t, i, tenant, pollTimeout)) <==> s.row.None? || Promising(s, tenant)
  {
    if s.row.None? {
      var acts, t := FreshCaller(s, tenant, pollTimeout);
      assert NewRuns(s, acts, t, |s.effects|, tenant, pollTimeout);
      assert NewReturns(s, acts, t, |s.callers|, tenant, pollTimeout);
    } else {
      var n := |s.callers|;
      forall acts, t, e: nat | Leads(s, acts, t, pollTimeout) && PurgeFree(acts)
        ensures !NewRuns(s, acts, t, e, tenant, pollTimeout)
      {
        NoneWinsOn(s, acts, t, n, pollTimeout);
      }
      if Promising(s, tenant) {
        var acts, t := PromiseIsKept(s, tenant, pollTimeout);
        assert NewReturns(s, acts, t, n, tenant, pollTimeout);
      } else {
        forall acts, t, i: nat | Leads(s, acts, t, pollTimeout) && PurgeFree(acts)
          ensures !NewReturns(s, acts, t, i, tenant, pollTimeout)
        {
          BarredOn(s, acts, t, n, tenant, pollTimeout);
        }
      }
    }
  }

  /** The clean-up revives any key, however poisoned, once its time is up and not
      before: a new caller then runs its effect and returns. */
  lemma CleanUpRevives(s: System, pollTimeout: int) returns (wait: nat, acts: seq<Action>, t: System)
    requires s.row.Some?
    ensures s.now + wait == Max(s.now, s.row.value.expiresAt + 1)
    ensures Enabled(s, Purge) <==> wait == 0
    ensures Leads(s, [Tick(wait), Purge] + acts, t, pollTimeout) && PurgeFree(acts)
    ensures NewlyReturns(s, t, |s.callers|) && |t.effects| == |s.effects| + 1
  {
    wait := Max(s.now, s.row.value.expiresAt + 1) - s.now;
    var late := Next(s, Tick(wait), pollTimeout);
    var free := Next(late, Purge, pollTimeout);
    acts, t := FreshCaller(free, "", pollTimeout);
    LeadsByOne(late, Purge, acts, t, pollTimeout);
    LeadsByOne(s, Tick(wait), [Purge] + acts, t, pollTimeout);
    assert [Tick(wait), Purge] + acts == [Tick(wait)] + ([Purge] + acts);
  }

  lemma {:induction false} NothingMoreRuns(s: System, acts: seq<Action>, t: System, pollTimeout: int)
    requires s.row.Some? && !SomeExecuting(s) && Leads(s, acts, t, pollTimeout) && PurgeFree(acts)
    ensures t.effects == s.effects
    decreases |acts|
  {
    if acts != [] {
      var u := Next(s, acts[0], pollTimeout);
      forall i | 0 <= i < |u.callers|
        ensures !u.callers[i].phase.Executing?
      {
        assert i < |s.callers| ==> !s.callers[i].phase.Executing?;
      }
      NothingMoreRuns(u, acts[1..], t, pollTimeout);
    }
  }

  /** An effect can be run, for the first time or once more, exactly when the key
      has no row, or some claimant has not yet run its own. */
  lemma RunsAgainIff(s: System, pollTimeout: int)
    ensures (exists acts, t :: RunsLater(s, acts, t, pollTimeout)) <==> s.row.None? || SomeExecuting(s)
  {
    if s.row.None? {
      var acts, t := FreshCaller(s, "", pollTimeout);
      assert RunsLater(s, acts, t, pollTimeout);
    } else if SomeExecuting(s) {
      var i: nat :| i < |s.callers| && s.callers[i].phase.Executing?;
      var t := Next(s, Effect(i, None), pollTimeout);
      LeadsByOne(s, Effect(i, None), [], t, pollTimeout);
      assert RunsLater(s, [Effect(i, None)], t, pollTimeout);
    } else {
      forall acts, t | Leads(s, acts, t, pollTimeout) && PurgeFree(acts)
        ensures !RunsLater(s, acts, t, pollTimeout)
      {
        NothingMoreRuns(s, acts, t, pollTimeout);
      }
    }
  }

  // ------------------------------------------------------------------
  // Runs in which it goes wrong
  // ------------------------------------------------------------------

  const CLAIM_THEN_RAISE: seq<Action> := [Arrive("t", 60), Check(0), Claim(0), Effect(0, None)]

  /** An effect that raises poisons its key. */
  lemma RaisingPoisons(pollTimeout: int) returns (states: seq<System>)
    ensures Run(states, CLAIM_THEN_RAISE, pollTimeout) && Poisoned(states[4])
  {
    var s1 := Next(START, Arrive("t", 60), pollTimeout);
    var s2 := Next(s1, Check(0), pollTimeout);
    var s3 := Next(s2, Claim(0), pollTimeout);
    states := [START, s1, s2, s3, Next(s3, Effect(0, None), pollTimeout)];
  }

  const SLOW_CLAIM: seq<Action> := [Arrive("t", 60), Check(0), Claim(0), Tick(61), Purge]
  const SECOND_CLAIM: seq<Action> := [Arrive("t", 60), Check(1), Claim(1), Effect(1, Some(Data("b"))), Complete(1)]
  const LATE_FINISH: seq<Action> := [Effect(0, Some(Data("a"))), Complete(0)]

  const AFTER_CLEAN_UP := System(61, None, 1, [Caller("t", 60, Executing(0))], [])

  const AFTER_SECOND :=
    System(61, Some(Row("t", Some(Data("b")), 121)), 2,
           [Caller("t", 60, Executing(0)), Caller("t", 60, Over(Returned(Data("b"))))],
           [Execution(1, 1, Some(Data("b")))])

  lemma FirstClaimIsCleanedUp(pollTimeout: int)
    ensures Leads(START, SLOW_CLAIM, AFTER_CLEAN_UP, pollTimeout)
  {
    var s1 := Next(START, Arrive("t", 60), pollTimeout);
    var s2 := Next(s1, Check(0), pollTimeout);
    var s3 := Next(s2, Claim(0), pollTimeout);
    var s4 := Next(s3, Tick(61), pollTimeout);
    assert s4.callers == AFTER_CLEAN_UP.callers;
    LeadsByOne(s4, Purge, [], AFTER_CLEAN_UP, pollTimeout);
    LeadsByOne(s3, Tick(61), [Purge], AFTER_CLEAN_UP, pollTimeout);
    LeadsByOne(s2, Claim(0), [Tick(61), Purge], AFTER_CLEAN_UP, pollTimeout);
    LeadsByOne(s1, Check(0), [Claim(0), Tick(61), Purge], AFTER_CLEAN_UP, pollTimeout);
    LeadsByOne(START, Arrive("t", 60), [Check(0), Claim(0), Tick(61), Purge], AFTER_CLEAN_UP, pollTimeout);
  }

  lemma SecondClaimSucceeds(pollTimeout: int)
    ensures Leads(AFTER_CLEAN_UP, SECOND_CLAIM, AFTER_SECOND, pollTimeout)
  {
    var effect := Effect(1, Some(Data("b")));
    var s1 := Next(AFTER_CLEAN_UP, Arrive("t", 60), pollTimeout);
    var s2 := Next(s1, Check(1), pollTimeout);
    var s3 := Next(s2, Claim(1), pollTimeout);
    var s4 := Next(s3, effect, pollTimeout);
    assert Next(s4, Complete(1), pollTimeout) == AFTER_SECOND;
    LeadsByOne(s4, Complete(1), [], AFTER_SECOND, pollTimeout);
    LeadsByOne(s3, effect, [Complete(1)], AFTER_SECOND, pollTimeout);
    LeadsByOne(s2, Claim(1), [effect, Complete(1)], AFTER_SECOND, pollTimeout);
    LeadsByOne(s1, Check(1), [Claim(1), effect, Complete(1)], AFTER_SECOND, pollTimeout);
    LeadsByOne(AFTER_CLEAN_UP, Arrive("t", 60), [Check(1), Claim(1), effect, Complete(1)], AFTER_SECOND, pollTimeout);
  }

  /** A claimant slower than its TTL: the clean-up frees the key, a second caller
      runs the effect again and returns its result, and the first then puts its
      own into the second claimant's row. */
  lemma CleanUpUnderSlowClaimant(pollTimeout: int) returns (t: System)
    ensures Leads(START, SLOW_CLAIM + (SECOND_CLAIM + LATE_FINISH), t, pollTimeout)
    ensures t.effects == [Execution(1, 1, Some(Data("b"))), Execution(0, 0, Some(Data("a")))]
    ensures |t.callers| == 2 && t.callers[1].phase == Over(Returned(Data("b")))
    ensures t.row == Some(Row("t", Some(Data("a")), 121))
  {
    FirstClaimIsCleanedUp(pollTimeout);
    SecondClaimSucceeds(pollTimeout);
    var late := Next(AFTER_SECOND, Effect(0, Some(Data("a"))), pollTimeout);
    t := Next(late, Complete(0), pollTimeout);
    LeadsByOne(late, Complete(0), [], t, pollTimeout);
    LeadsByOne(AFTER_SECOND, Effect(0, Some(Data("a"))), [Complete(0)], t, pollTimeout);
    LeadsOn(AFTER_CLEAN_UP, SECOND_CLAIM, AFTER_SECOND, LATE_FINISH, t, pollTimeout);
    LeadsOn(START, SLOW_CLAIM, AFTER_CLEAN_UP, SECOND_CLAIM + LATE_FINISH, t, pollTimeout);
  }
}
