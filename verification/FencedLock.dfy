/** The Redis lock with fencing tokens (`lock.py`) and the ledger that rejects
    stale tokens (`fencing.py`). Times are integer milliseconds.

    `acquire` is not atomic: SET NX PX, INCR and EXPIRE are three commands, and
    other clients may act between them. The commands are pure functions on the
    two keys of one resource. The class `DistributedLock` runs them on a whole
    key space; the transition system interleaves them freely. */
module FencedLock {
  import opened Common

  datatype LockEntry = LockEntry(owner: string, expiresAt: int)

  // A counter created by INCR has no expiry until EXPIRE gives it one.
  datatype Counter = Counter(value: nat, expiresAt: Option<int>)

  datatype Keys = Keys(lock: Option<LockEntry>, counter: Option<Counter>)

  predicate LockLive(k: Keys, now: int) {
    k.lock.Some? && now < k.lock.value.expiresAt
  }

  predicate CounterLive(k: Keys, now: int) {
    k.counter.Some? && (k.counter.value.expiresAt.Some? ==> now < k.counter.value.expiresAt.value)
  }

  // SET key owner NX PX ttl
  function SetNx(k: Keys, owner: string, now: int, ttl: int): Keys {
    if LockLive(k, now) then k else k.(lock := Some(LockEntry(owner, now + ttl)))
  }

  // INCR fencing-key: a lapsed key counts as absent and restarts from 1.
  function Incr(k: Keys, now: int): Keys {
    if CounterLive(k, now)
    then k.(counter := Some(Counter(k.counter.value.value + 1, k.counter.value.expiresAt)))
    else k.(counter := Some(Counter(1, None)))
  }

  function CounterTtl(ttl: int): int {
    Max(ttl / 1000, 1) * 100 * 1000
  }

  // EXPIRE fencing-key: does nothing on an absent key.
  function Expire(k: Keys, now: int, ttl: int): Keys {
    if CounterLive(k, now)
    then k.(counter := Some(Counter(k.counter.value.value, Some(now + CounterTtl(ttl)))))
    else k
  }

  predicate Owns(k: Keys, owner: string, now: int) {
    LockLive(k, now) && k.lock.value.owner == owner
  }

  // The compare-then-delete release script.
  function CompareDelete(k: Keys, owner: string, now: int): Keys {
    if Owns(k, owner, now) then k.(lock := None) else k
  }

  /** The fencing counter outlives the lock by a factor of at least fifty. */
  lemma CounterTtlDwarfsLockTtl(ttl: int)
    requires 0 < ttl
    ensures 50 * ttl <= CounterTtl(ttl)
  {
    assert ttl == 1000 * (ttl / 1000) + ttl % 1000;
  }

  datatype LockToken = LockToken(resourceId: string, ownerId: string, fencingToken: nat)

  /** The key space shared by every client, with its clock. */
  class Redis {
    var now: int
    var locks: map<string, LockEntry>
    var counters: map<string, Counter>

    function KeysOf(r: string): Keys
      reads this
    {
      Keys(if r in locks then Some(locks[r]) else None,
           if r in counters then Some(counters[r]) else None)
    }

    constructor (now: int)
      ensures this.now == now
      ensures forall r :: KeysOf(r) == Keys(None, None)
    {
      this.now := now;
      locks, counters := map[], map[];
    }

    // Writes both keys of one resource.
    method Store(r: string, k: Keys)
      modifies this
      ensures KeysOf(r) == k && now == old(now)
      ensures forall q :: q != r ==> KeysOf(q) == old(KeysOf(q))
    {
      locks := if k.lock.Some? then locks[r := k.lock.value] else locks - {r};
      counters := if k.counter.Some? then counters[r := k.counter.value] else counters - {r};
    }
  }

  class DistributedLock {
    const redis: Redis
    const ttlMs: int

    constructor (redis: Redis, ttlMs: int := 30_000)
      ensures this.redis == redis && this.ttlMs == ttlMs
    {
      this.redis := redis;
      this.ttlMs := ttlMs;
    }

    method Acquire(resourceId: string, ownerId: string) returns (t: Option<LockToken>)
      modifies redis
      ensures redis.now == old(redis.now)
      ensures forall q :: q != resourceId ==> redis.KeysOf(q) == old(redis.KeysOf(q))
      ensures t.None? <==> old(LockLive(redis.KeysOf(resourceId), redis.now))
      ensures t.None? ==> redis.KeysOf(resourceId) == old(redis.KeysOf(resourceId))
      ensures t.Some? ==>
                && redis.KeysOf(resourceId)
                   == old(Expire(Incr(SetNx(redis.KeysOf(resourceId), ownerId, redis.now, ttlMs), redis.now), redis.now, ttlMs))
                && redis.KeysOf(resourceId).counter.Some?
                && t.value == LockToken(resourceId, ownerId, redis.KeysOf(resourceId).counter.value.value)
    {
      var k := redis.KeysOf(resourceId);
      if LockLive(k, redis.now) {
        return None;
      }
      redis.Store(resourceId, SetNx(k, ownerId, redis.now, ttlMs));
      redis.Store(resourceId, Incr(redis.KeysOf(resourceId), redis.now));
      var fencingToken := redis.KeysOf(resourceId).counter.value.value;
      redis.Store(resourceId, Expire(redis.KeysOf(resourceId), redis.now, ttlMs));
      return Some(LockToken(resourceId, ownerId, fencingToken));
    }

    method Release(token: LockToken) returns (released: bool)
      modifies redis
      ensures redis.now == old(redis.now)
      ensures forall q :: q != token.resourceId ==> redis.KeysOf(q) == old(redis.KeysOf(q))
      ensures released == old(Owns(redis.KeysOf(token.resourceId), token.ownerId, redis.now))
      ensures redis.KeysOf(token.resourceId)
              == old(CompareDelete(redis.KeysOf(token.resourceId), token.ownerId, redis.now))
      ensures var k := old(redis.KeysOf(token.resourceId));
              redis.KeysOf(token.resourceId) == if released then Keys(None, k.counter) else k
    {
      var k := redis.KeysOf(token.resourceId);
      released := Owns(k, token.ownerId, redis.now);
      redis.Store(token.resourceId, CompareDelete(k, token.ownerId, redis.now));
    }
  }

  // FencingToken.validate
  predicate Fresh(token: int, lastSeen: int) { lastSeen <= token }

  class FencingTokenTracker {
    var seen: map<string, int>

    function LastSeen(r: string): int
      reads this
    {
      if r in seen then seen[r] else 0
    }

    constructor ()
      ensures forall r :: LastSeen(r) == 0
    {
      seen := map[];
    }

    method Validate(resourceId: string, token: int) returns (ok: bool)
      modifies this
      ensures ok == Fresh(token, old(LastSeen(resourceId)))
      ensures LastSeen(resourceId) == Max(token, old(LastSeen(resourceId)))
      ensures forall q :: q != resourceId ==> LastSeen(q) == old(LastSeen(q))
    {
      if !Fresh(token, LastSeen(resourceId)) {
        return false;
      }
      seen := seen[resourceId := token];
      return true;
    }
  }

  // ------------------------------------------------------------------
  // Interleavings on one resource
  // ------------------------------------------------------------------

  /** One successful SET. `token` is filled in by INCR, `complete` by EXPIRE
      (only then does the caller have a LockToken to write or release with). */
  datatype Hold = Hold(owner: string, setAt: int, token: Option<nat>, complete: bool, released: bool)

  /** `holds` lists every hold in the order its SET succeeded; `accepted` lists
      the holds whose writes the tracker let through, in order. */
  datatype System = System(now: int, keys: Keys, holds: seq<Hold>, lastSeen: int, accepted: seq<nat>)

  datatype Action =
    | Tick(d: nat)
    | SetLock(owner: string)
    | Draw(i: nat)      // INCR on behalf of hold i
    | Stamp(i: nat)     // EXPIRE on behalf of hold i
    | Release(i: nat)
    | Write(i: nat)

  const INIT := System(0, Keys(None, None), [], 0, [])

  // What a client's program order allows.
  predicate Enabled(s: System, a: Action) {
    match a
    case Tick(_) => true
    case SetLock(_) => true
    case Draw(i) => i < |s.holds| && s.holds[i].token.None?
    case Stamp(i) => i < |s.holds| && s.holds[i].token.Some? && !s.holds[i].complete
    case Release(i) => i < |s.holds| && s.holds[i].complete
    case Write(i) => i < |s.holds| && s.holds[i].complete && s.holds[i].token.Some?
  }

  function Next(s: System, a: Action, ttl: int): System
    requires Enabled(s, a)
  {
    match a
    case Tick(d) => s.(now := s.now + d)
    case SetLock(owner) =>
      if LockLive(s.keys, s.now) then s
      else s.(keys := SetNx(s.keys, owner, s.now, ttl),
              holds := s.holds + [Hold(owner, s.now, None, false, false)])
    case Draw(i) =>
      var k := Incr(s.keys, s.now);
      s.(keys := k, holds := s.holds[i := s.holds[i].(token := Some(k.counter.value.value))])
    case Stamp(i) =>
      s.(keys := Expire(s.keys, s.now, ttl), holds := s.holds[i := s.holds[i].(complete := true)])
    case Release(i) =>
      var deleted := Owns(s.keys, s.holds[i].owner, s.now);
      s.(keys := CompareDelete(s.keys, s.holds[i].owner, s.now),
         holds := s.holds[i := s.holds[i].(released := s.holds[i].released || deleted)])
    case Write(i) =>
      var t := s.holds[i].token.value;
      if Fresh(t, s.lastSeen) then s.(lastSeen := t, accepted := s.accepted + [i]) else s
  }

  /** The assumptions the lock needs from its environment. */
  datatype Rules = Rules(uniqueOwners: bool, drawInTime: bool, counterAlive: bool, stampAlive: bool)

  predicate SomeDrawn(s: System) {
    exists i :: 0 <= i < |s.holds| && s.holds[i].token.Some?
  }

  predicate Obeys(s: System, a: Action, ttl: int, rules: Rules)
    requires Enabled(s, a)
  {
    && (rules.uniqueOwners && a.SetLock? ==> forall i :: 0 <= i < |s.holds| ==> s.holds[i].owner != a.owner)
    && (rules.drawInTime && a.Draw? ==> s.now < s.holds[a.i].setAt + ttl)
    && (rules.counterAlive && a.Draw? && SomeDrawn(s) ==> CounterLive(s.keys, s.now))
    && (rules.stampAlive && a.Stamp? ==> CounterLive(s.keys, s.now))
  }

  predicate Step(s: System, a: Action, t: System, ttl: int, rules: Rules) {
    Enabled(s, a) && Obeys(s, a, ttl, rules) && t == Next(s, a, ttl)
  }

  /** `states` is an execution of `acts` from the initial state that keeps the
      rules. Every reachable state is an element of such a sequence. */
  predicate Run(states: seq<System>, acts: seq<Action>, ttl: int, rules: Rules) {
    && |states| == |acts| + 1 && states[0] == INIT
    && forall k :: 0 <= k < |acts| ==> Step(states[k], acts[k], states[k + 1], ttl, rules)
  }

  // A hold whose lock has neither run out nor been given back.
  predicate Active(s: System, i: nat, ttl: int)
    requires i < |s.holds|
  {
    !s.holds[i].released && s.now < s.holds[i].setAt + ttl
  }

  // --- Mutual exclusion -----------------------------------------------

  /** Only the last hold can be active, the lock entry is then its own, and a
      live entry always belongs to an active hold. */
  ghost predicate Exclusive(s: System, ttl: int) {
    && (forall i :: 0 <= i < |s.holds| && Active(s, i, ttl) ==>
                      && i == |s.holds| - 1
                      && s.keys.lock == Some(LockEntry(s.holds[i].owner, s.holds[i].setAt + ttl)))
    && (LockLive(s.keys, s.now) ==> s.holds != [] && Active(s, |s.holds| - 1, ttl))
  }

  // A release that is its hold's first and within its TTL, or finds a lock it does not own.
  predicate SafeRelease(s: System, i: nat, ttl: int)
    requires i < |s.holds|
  {
    Owns(s.keys, s.holds[i].owner, s.now) ==> Active(s, i, ttl)
  }

  /** With no rule assumed: only an unsafe release ends exclusion, and it always does. */
  lemma ExclusionStepIff(s: System, a: Action, ttl: int)
    requires 0 < ttl && Exclusive(s, ttl) && Enabled(s, a)
    ensures Exclusive(Next(s, a, ttl), ttl) <==> (a.Release? ==> SafeRelease(s, a.i, ttl))
  {
    var t := Next(s, a, ttl);
    if a.Release? {
      assert Exclusive(t, ttl) <==> SafeRelease(s, a.i, ttl) by {
        if !SafeRelease(s, a.i, ttl) {
          assert Active(t, |s.holds| - 1, ttl);
        }
      }
    } else {
      forall i | 0 <= i < |t.holds| && Active(t, i, ttl)
        ensures i == |t.holds| - 1 && t.keys.lock == Some(LockEntry(t.holds[i].owner, t.holds[i].setAt + ttl))
      {
        if i < |s.holds| { assert Active(s, i, ttl); }
      }
    }
  }

  ghost predicate ExclusiveUpTo(states: seq<System>, ttl: int, n: nat)
    requires n < |states|
  {
    forall k :: 0 <= k <= n ==> Exclusive(states[k], ttl)
  }

  ghost predicate SafeUpTo(states: seq<System>, acts: seq<Action>, ttl: int, n: nat)
    requires n <= |acts| < |states|
  {
    forall k :: 0 <= k < n && acts[k].Release? && acts[k].i < |states[k].holds| ==> SafeRelease(states[k], acts[k].i, ttl)
  }

  /** With no rule assumed: exclusion lasts through a run exactly when each of
      its releases is its hold's first and within its TTL, or finds a lock it
      does not own. */
  lemma {:induction false} ExclusionIff(states: seq<System>, acts: seq<Action>, ttl: int, rules: Rules, n: nat)
    requires 0 < ttl && Run(states, acts, ttl, rules) && n < |states|
    ensures ExclusiveUpTo(states, ttl, n) <==> SafeUpTo(states, acts, ttl, n)
  {
    if n > 0 {
      ExclusionIff(states, acts, ttl, rules, n - 1);
      assert Step(states[n - 1], acts[n - 1], states[n], ttl, rules);
      if Exclusive(states[n - 1], ttl) {
        ExclusionStepIff(states[n - 1], acts[n - 1], ttl);
      }
    }
  }

  predicate OneActive(s: System, ttl: int) {
    forall i, j :: 0 <= i < |s.holds| && 0 <= j < |s.holds| && Active(s, i, ttl) && Active(s, j, ttl) ==> i == j
  }

  /** What is at stake in a release: while exclusion lasts at most one hold is
      active, and right after a release a client can take the lock beside an
      active hold exactly if that release was unsafe. */
  lemma SecondHoldIff(s: System, i: nat, owner: string, ttl: int)
    requires 0 < ttl && Exclusive(s, ttl) && Enabled(s, Release(i))
    ensures OneActive(s, ttl)
    ensures var freed := Next(s, Release(i), ttl);
            OneActive(Next(freed, SetLock(owner), ttl), ttl) <==> SafeRelease(s, i, ttl)
  {
    var freed := Next(s, Release(i), ttl);
    var t := Next(freed, SetLock(owner), ttl);
    ExclusionStepIff(s, Release(i), ttl);
    if SafeRelease(s, i, ttl) {
      ExclusionStepIff(freed, SetLock(owner), ttl);
    } else {
      assert Active(t, |s.holds| - 1, ttl) && Active(t, |s.holds|, ttl);
    }
  }

  predicate DistinctOwners(s: System) {
    forall i, j :: 0 <= i < j < |s.holds| ==> s.holds[i].owner != s.holds[j].owner
  }

  // An owner id of its own makes every release safe.
  lemma DistinctOwnersReleaseSafely(s: System, i: nat, ttl: int)
    requires Exclusive(s, ttl) && DistinctOwners(s) && i < |s.holds|
    ensures SafeRelease(s, i, ttl)
  {
  }

  lemma {:induction false} UniqueOwnersAreSafe(states: seq<System>, acts: seq<Action>, ttl: int, rules: Rules, n: nat)
    requires 0 < ttl && rules.uniqueOwners && Run(states, acts, ttl, rules) && n < |states|
    ensures DistinctOwners(states[n]) && Exclusive(states[n], ttl)
  {
    if n > 0 {
      UniqueOwnersAreSafe(states, acts, ttl, rules, n - 1);
      assert Step(states[n - 1], acts[n - 1], states[n], ttl, rules);
      if acts[n - 1].Release? {
        DistinctOwnersReleaseSafely(states[n - 1], acts[n - 1].i, ttl);
      }
      ExclusionStepIff(states[n - 1], acts[n - 1], ttl);
    }
  }

  /** With owner ids unique per hold at most one hold is active in any reachable state. */
  lemma MutualExclusion(states: seq<System>, acts: seq<Action>, ttl: int, rules: Rules, n: nat)
    requires 0 < ttl && rules.uniqueOwners && Run(states, acts, ttl, rules) && n < |states|
    ensures OneActive(states[n], ttl)
  {
    UniqueOwnersAreSafe(states, acts, ttl, rules, n);
  }

  // --- Token order ----------------------------------------------------

  ghost predicate TokensIncrease(s: System) {
    forall i, j :: 0 <= i < j < |s.holds| && s.holds[i].token.Some? && s.holds[j].token.Some? ==>
                     s.holds[i].token.value < s.holds[j].token.value
  }

  ghost predicate AcceptedInOrder(s: System) {
    && (forall k :: 0 <= k < |s.accepted| ==> s.accepted[k] < |s.holds|)
    && (forall k, l :: 0 <= k < l < |s.accepted| ==> s.accepted[k] <= s.accepted[l])
  }

  ghost predicate DrawnBelowCounter(s: System) {
    forall i :: 0 <= i < |s.holds| && s.holds[i].token.Some? ==>
                  s.keys.counter.Some? && 0 < s.holds[i].token.value <= s.keys.counter.value.value
  }

  // No hold later than i has drawn its token yet.
  predicate InTurn(s: System, i: nat) {
    forall j :: i < j < |s.holds| ==> s.holds[j].token.None?
  }

  /** From tokens in order and at or below the counter: one INCR keeps the order
      exactly when no later hold has drawn yet; or, if the counter had lapsed and
      restarts from 1, when no earlier hold has drawn and every later token is
      above 1. */
  lemma DrawKeepsOrderIff(s: System, i: nat, ttl: int)
    requires Enabled(s, Draw(i)) && TokensIncrease(s) && DrawnBelowCounter(s)
    ensures TokensIncrease(Next(s, Draw(i), ttl)) <==>
            if CounterLive(s.keys, s.now)
            then InTurn(s, i)
            else (forall j :: 0 <= j < i ==> s.holds[j].token.None?) &&
                 (forall j :: i < j < |s.holds| && s.holds[j].token.Some? ==> 1 < s.holds[j].token.value)
  {
    var t := Next(s, Draw(i), ttl);
    assert forall j :: 0 <= j < |s.holds| && j != i ==> t.holds[j] == s.holds[j];
    if TokensIncrease(t) {
      forall j | 0 <= j < |s.holds| && j != i && s.holds[j].token.Some?
        ensures j < i ==> s.holds[j].token.value < t.holds[i].token.value
        ensures i < j ==> t.holds[i].token.value < s.holds[j].token.value
      {
        assert t.holds[j].token.Some?;
      }
    }
  }

  lemma SameTokens(s: System, t: System)
    requires |s.holds| == |t.holds| && forall j :: 0 <= j < |s.holds| ==> t.holds[j].token == s.holds[j].token
    requires s.keys.counter.Some? ==> t.keys.counter.Some? && t.keys.counter.value.value == s.keys.counter.value.value
    ensures TokensIncrease(s) <==> TokensIncrease(t)
    ensures DrawnBelowCounter(s) ==> DrawnBelowCounter(t)
  {
    assert TokensIncrease(t) ==> TokensIncrease(s) by {
      if TokensIncrease(t) {
        forall i, j | 0 <= i < j < |s.holds| && s.holds[i].token.Some? && s.holds[j].token.Some?
          ensures s.holds[i].token.value < s.holds[j].token.value
        {
          assert t.holds[i].token.Some? && t.holds[j].token.Some?;
        }
      }
    }
  }

  // A new hold without a token changes nothing in the order.
  lemma NewHoldKeepsTokens(s: System, t: System, h: Hold)
    requires t.holds == s.holds + [h] && h.token.None? && t.keys.counter == s.keys.counter
    ensures TokensIncrease(s) ==> TokensIncrease(t)
    ensures DrawnBelowCounter(s) ==> DrawnBelowCounter(t)
  {
  }

  lemma DrawStaysBelow(s: System, i: nat, ttl: int, rules: Rules)
    requires rules.counterAlive && DrawnBelowCounter(s) && Enabled(s, Draw(i)) && Obeys(s, Draw(i), ttl, rules)
    ensures DrawnBelowCounter(Next(s, Draw(i), ttl))
  {
    assert SomeDrawn(s) ==> CounterLive(s.keys, s.now);
  }

  /** While the counter is alive, only a draw out of turn disturbs the order. */
  lemma TokenStepIff(s: System, a: Action, ttl: int, rules: Rules)
    requires rules.counterAlive && TokensIncrease(s) && DrawnBelowCounter(s) && Enabled(s, a) && Obeys(s, a, ttl, rules)
    ensures DrawnBelowCounter(Next(s, a, ttl))
    ensures TokensIncrease(Next(s, a, ttl)) <==> (a.Draw? ==> InTurn(s, a.i))
  {
    var t := Next(s, a, ttl);
    match a
    case Draw(i) =>
      DrawStaysBelow(s, i, ttl, rules);
      DrawKeepsOrderIff(s, i, ttl);
    case SetLock(owner) =>
      if !LockLive(s.keys, s.now) { NewHoldKeepsTokens(s, t, Hold(owner, s.now, None, false, false)); }
    case _ => SameTokens(s, t);
  }

  ghost predicate OrderedUpTo(states: seq<System>, n: nat)
    requires n < |states|
  {
    forall k :: 0 <= k <= n ==> TokensIncrease(states[k])
  }

  ghost predicate InTurnUpTo(states: seq<System>, acts: seq<Action>, n: nat)
    requires n <= |acts| < |states|
  {
    forall k :: 0 <= k < n && acts[k].Draw? ==> InTurn(states[k], acts[k].i)
  }

  lemma {:induction false} OrderIff(states: seq<System>, acts: seq<Action>, ttl: int, rules: Rules, n: nat)
    requires rules.counterAlive && Run(states, acts, ttl, rules) && n < |states|
    ensures OrderedUpTo(states, n) <==> InTurnUpTo(states, acts, n)
    ensures OrderedUpTo(states, n) ==> DrawnBelowCounter(states[n])
  {
    if n > 0 {
      OrderIff(states, acts, ttl, rules, n - 1);
      assert Step(states[n - 1], acts[n - 1], states[n], ttl, rules);
      if OrderedUpTo(states, n - 1) {
        TokenStepIff(states[n - 1], acts[n - 1], ttl, rules);
      }
    }
  }

  /** The tracker's own doing, with no rule assumed: the tokens of accepted
      writes never fall, the last being the ledger's. */
  ghost predicate LedgerInv(s: System) {
    && (forall i :: 0 <= i < |s.holds| && s.holds[i].complete ==> s.holds[i].token.Some?)
    && (forall k :: 0 <= k < |s.accepted| ==> Accepts(s, k))
    && (forall k, l :: 0 <= k < l < |s.accepted| && Accepts(s, k) && Accepts(s, l) ==> TokenOf(s, k) <= TokenOf(s, l))
    && (s.accepted != [] ==> s.lastSeen == TokenOf(s, |s.accepted| - 1))
    && (s.accepted == [] ==> s.lastSeen == 0)
  }

  predicate Accepts(s: System, k: nat) {
    k < |s.accepted| && s.accepted[k] < |s.holds| && s.holds[s.accepted[k]].token.Some?
  }

  function TokenOf(s: System, k: nat): nat {
    if Accepts(s, k) then s.holds[s.accepted[k]].token.value else 0
  }

  lemma LedgerKept(s: System, t: System)
    requires LedgerInv(s) && t.accepted == s.accepted && t.lastSeen == s.lastSeen && |s.holds| <= |t.holds|
    requires forall i :: 0 <= i < |s.holds| && s.holds[i].token.Some? ==> t.holds[i].token == s.holds[i].token
    requires forall i :: 0 <= i < |t.holds| && t.holds[i].complete ==> t.holds[i].token.Some?
    ensures LedgerInv(t)
  {
    forall k | 0 <= k < |t.accepted|
      ensures Accepts(t, k) && TokenOf(t, k) == TokenOf(s, k)
    {
      assert Accepts(s, k);
    }
  }

  lemma LedgerGrows(s: System, i: nat, t: System)
    requires LedgerInv(s) && i < |s.holds| && s.holds[i].token.Some? && Fresh(s.holds[i].token.value, s.lastSeen)
    requires t == s.(lastSeen := s.holds[i].token.value, accepted := s.accepted + [i])
    ensures LedgerInv(t)
  {
    var n := |s.accepted|;
    assert Accepts(t, n) && TokenOf(t, n) == t.lastSeen;
    forall k | 0 <= k < n
      ensures Accepts(t, k) && TokenOf(t, k) == TokenOf(s, k) <= s.lastSeen
    {
      assert Accepts(s, k) && Accepts(s, n - 1);
    }
  }

  lemma LedgerStep(s: System, a: Action, ttl: int)
    requires LedgerInv(s) && Enabled(s, a)
    ensures LedgerInv(Next(s, a, ttl))
  {
    var t := Next(s, a, ttl);
    if a.Write? {
      if Fresh(s.holds[a.i].token.value, s.lastSeen) {
        LedgerGrows(s, a.i, t);
      }
    } else {
      LedgerKept(s, t);
    }
  }

  lemma {:induction false} LedgerHolds(states: seq<System>, acts: seq<Action>, ttl: int, rules: Rules, n: nat)
    requires Run(states, acts, ttl, rules) && n < |states|
    ensures LedgerInv(states[n])
  {
    if n > 0 {
      LedgerHolds(states, acts, ttl, rules, n - 1);
      assert Step(states[n - 1], acts[n - 1], states[n], ttl, rules);
      LedgerStep(states[n - 1], acts[n - 1], ttl);
    }
  }

  // Tokens that follow hold order carry that order over to the accepted writes.
  lemma OrderReachesWrites(s: System)
    requires LedgerInv(s) && TokensIncrease(s)
    ensures AcceptedInOrder(s)
  {
    forall k, l | 0 <= k < l < |s.accepted|
      ensures s.accepted[k] <= s.accepted[l]
    {
      assert Accepts(s, k) && Accepts(s, l);
      assert TokenOf(s, k) <= TokenOf(s, l);
    }
    assert forall k :: 0 <= k < |s.accepted| ==> Accepts(s, k);
  }

  /** While the counter is alive when drawn from, whatever the owner ids and
      however late an INCR: tokens follow the order in which SET succeeded, all
      through a run, exactly when every hold draws before any later hold does;
      accepted writes then never go back to an earlier hold. */
  lemma TokenOrderIff(states: seq<System>, acts: seq<Action>, ttl: int, rules: Rules, n: nat)
    requires rules.counterAlive && Run(states, acts, ttl, rules) && n < |states|
    ensures OrderedUpTo(states, n) <==> InTurnUpTo(states, acts, n)
    ensures OrderedUpTo(states, n) ==> AcceptedInOrder(states[n])
  {
    OrderIff(states, acts, ttl, rules, n);
    LedgerHolds(states, acts, ttl, rules, n);
    if OrderedUpTo(states, n) {
      OrderReachesWrites(states[n]);
    }
  }

  // `s` can reach `t` by `acts`.
  predicate Leads(s: System, acts: seq<Action>, t: System, ttl: int)
    decreases |acts|
  {
    if acts == [] then s == t
    else Enabled(s, acts[0]) && Leads(Next(s, acts[0], ttl), acts[1..], t, ttl)
  }

  // A hold that has drawn can get its write to the tracker, which is then at least that far.
  lemma Deliver(s: System, j: nat, ttl: int) returns (acts: seq<Action>, t: System)
    requires LedgerInv(s) && j < |s.holds| && s.holds[j].token.Some?
    ensures Leads(s, acts, t, ttl) && LedgerInv(t)
    ensures t.now == s.now && (CounterLive(s.keys, s.now) && 0 < ttl ==> CounterLive(t.keys, t.now))
    ensures s.keys.counter.Some? ==> t.keys.counter.Some? && t.keys.counter.value.value == s.keys.counter.value.value
    ensures |t.holds| == |s.holds| && forall k :: 0 <= k < |s.holds| ==> t.holds[k].token == s.holds[k].token
    ensures s.holds[j].token.value <= t.lastSeen
    ensures t.accepted == s.accepted + [j] || (t.accepted == s.accepted && s.holds[j].token.value < s.lastSeen)
  {
    var u := s;
    acts := [Write(j)];
    if !s.holds[j].complete {
      u := Next(s, Stamp(j), ttl);
      LedgerStep(s, Stamp(j), ttl);
      acts := [Stamp(j), Write(j)];
      assert acts[1..] == [Write(j)];
    }
    t := Next(u, Write(j), ttl);
    LedgerStep(u, Write(j), ttl);
    assert [Write(j)][1..] == [] && Leads(t, [], t, ttl);
    assert Leads(u, [Write(j)], t, ttl);
  }

  lemma {:induction false} LeadsOn(s: System, a: seq<Action>, t: System, b: seq<Action>, u: System, ttl: int)
    requires Leads(s, a, t, ttl) && Leads(t, b, u, ttl)
    ensures Leads(s, a + b, u, ttl)
    decreases |a|
  {
    if a == [] {
      assert a + b == b;
    } else {
      LeadsOn(Next(s, a[0], ttl), a[1..], t, b, u, ttl);
      assert (a + b)[1..] == a[1..] + b;
    }
  }

  // The later hold's write first: the last accepted write is then of a hold after i.
  lemma LaterWriteFirst(s: System, i: nat, j: nat, ttl: int) returns (acts: seq<Action>, t: System)
    requires 0 < ttl && LedgerInv(s) && TokensIncrease(s) && DrawnBelowCounter(s) && CounterLive(s.keys, s.now)
    requires i < j < |s.holds| && s.holds[i].token.None? && s.holds[j].token.Some?
    ensures Leads(s, acts, t, ttl) && LedgerInv(t) && CounterLive(t.keys, t.now)
    ensures i < |t.holds| && t.holds[i].token.None?
    ensures t.lastSeen <= t.keys.counter.value.value
    ensures t.accepted != [] && i < t.accepted[|t.accepted| - 1]
  {
    acts, t := Deliver(s, j, ttl);
    var n := |t.accepted|;
    assert t.accepted == [] ==> t.lastSeen == 0;
    assert Accepts(t, n - 1);
    assert t.lastSeen == TokenOf(t, n - 1) == s.holds[t.accepted[n - 1]].token.value;
  }

  // Then the earlier hold draws above everything seen, and its write is accepted.
  lemma EarlierWriteLast(s: System, i: nat, ttl: int) returns (acts: seq<Action>, t: System)
    requires LedgerInv(s) && CounterLive(s.keys, s.now) && s.lastSeen <= s.keys.counter.value.value
    requires Enabled(s, Draw(i))
    ensures Leads(s, acts, t, ttl) && t.accepted == s.accepted + [i]
  {
    var drawn := Next(s, Draw(i), ttl);
    LedgerStep(s, Draw(i), ttl);
    var last;
    last, t := Deliver(drawn, i, ttl);
    acts := [Draw(i)] + last;
    assert acts[1..] == last;
  }

  /** An INCR out of turn is never harmless: once a later hold has drawn, the
      tracker can be brought to accept a write of the earlier hold after one of
      a later. */
  lemma OutOfTurnAdmitsStaleWrite(s: System, i: nat, ttl: int) returns (acts: seq<Action>, t: System)
    requires 0 < ttl && LedgerInv(s) && TokensIncrease(s) && DrawnBelowCounter(s) && CounterLive(s.keys, s.now)
    requires Enabled(s, Draw(i)) && !InTurn(s, i)
    ensures Leads(s, acts, t, ttl) && !AcceptedInOrder(t)
  {
    var j: nat :| i < j < |s.holds| && s.holds[j].token.Some?;
    var first, u := LaterWriteFirst(s, i, j, ttl);
    var last;
    last, t := EarlierWriteLast(u, i, ttl);
    LeadsOn(s, first, u, last, t, ttl);
    acts := first + last;
    assert t.accepted[|u.accepted| - 1] > t.accepted[|u.accepted|];
  }

  // --- A counter that lapses between holds ------------------------------

  // The counter is alive, or nothing has been drawn from it yet.
  predicate CounterServes(s: System) {
    SomeDrawn(s) ==> CounterLive(s.keys, s.now)
  }

  ghost predicate ServedUpTo(states: seq<System>, acts: seq<Action>, n: nat)
    requires n <= |acts| < |states|
  {
    forall k :: 0 <= k < n && acts[k].Draw? ==> CounterServes(states[k])
  }

  // With no rule assumed: a draw in turn keeps the order exactly if the counter serves it.
  lemma LapseStepIff(s: System, a: Action, ttl: int)
    requires TokensIncrease(s) && DrawnBelowCounter(s) && Enabled(s, a) && (a.Draw? ==> InTurn(s, a.i))
    ensures TokensIncrease(Next(s, a, ttl)) <==> (a.Draw? ==> CounterServes(s))
    ensures TokensIncrease(Next(s, a, ttl)) ==> DrawnBelowCounter(Next(s, a, ttl))
  {
    var alive := Rules(false, false, true, false);
    if a.Draw? && !CounterServes(s) {
      var j :| 0 <= j < |s.holds| && s.holds[j].token.Some?;
      assert j < a.i;
      DrawKeepsOrderIff(s, a.i, ttl);
    } else {
      TokenStepIff(s, a, ttl, alive);
    }
  }

  /** With no rule assumed: among runs in which every hold draws before any later
      one, tokens follow SET order all through a run exactly when no draw but
      those before any token has been drawn finds the counter lapsed. */
  lemma {:induction false} LapseIff(states: seq<System>, acts: seq<Action>, ttl: int, rules: Rules, n: nat)
    requires Run(states, acts, ttl, rules) && n < |states| && InTurnUpTo(states, acts, n)
    ensures OrderedUpTo(states, n) <==> ServedUpTo(states, acts, n)
    ensures OrderedUpTo(states, n) ==> DrawnBelowCounter(states[n])
  {
    if n > 0 {
      LapseIff(states, acts, ttl, rules, n - 1);
      assert Step(states[n - 1], acts[n - 1], states[n], ttl, rules);
      if OrderedUpTo(states, n - 1) {
        LapseStepIff(states[n - 1], acts[n - 1], ttl);
      }
    }
  }

  predicate Accepted(s: System, i: nat) {
    i < |s.holds| && s.holds[i].token.Some? && Fresh(s.holds[i].token.value, s.lastSeen)
  }

  /** The last hold to have succeeded is never refused while tokens follow SET
      order. Once it draws from a lapsed counter it is refused exactly if some
      earlier write was accepted with a token above 1. */
  lemma LastHoldRefusedIff(s: System, ttl: int)
    requires LedgerInv(s) && s.holds != []
    ensures var last := |s.holds| - 1;
            TokensIncrease(s) && s.holds[last].token.Some? ==> Accepted(s, last)
    ensures var last := |s.holds| - 1;
            Enabled(s, Draw(last)) && !CounterLive(s.keys, s.now) ==>
              (!Accepted(Next(s, Draw(last), ttl), last) <==> exists k :: 0 <= k < |s.accepted| && 1 < TokenOf(s, k))
  {
    var n := |s.accepted|;
    if n > 0 {
      assert Accepts(s, n - 1);
      forall k | 0 <= k < n
        ensures TokenOf(s, k) <= s.lastSeen
      {
        assert Accepts(s, k);
      }
    }
  }

  const STRICT := Rules(true, true, true, false)

  // Within its own TTL a hold is the last, so it draws in turn.
  lemma InTimeIsInTurn(s: System, i: nat, ttl: int)
    requires Exclusive(s, ttl) && Enabled(s, Draw(i)) && s.now < s.holds[i].setAt + ttl && !s.holds[i].released
    ensures InTurn(s, i)
  {
    assert Active(s, i, ttl);
  }

  lemma {:induction false} ReleasedHaveTokens(states: seq<System>, acts: seq<Action>, ttl: int, rules: Rules, n: nat, i: nat)
    requires Run(states, acts, ttl, rules) && n < |states| && i < |states[n].holds|
    ensures states[n].holds[i].released ==> states[n].holds[i].complete
  {
    if n > 0 {
      assert Step(states[n - 1], acts[n - 1], states[n], ttl, rules);
      if i < |states[n - 1].holds| {
        ReleasedHaveTokens(states, acts, ttl, rules, n - 1, i);
      }
    }
  }

  /** In every interleaving with unique owners, INCR before the caller's own
      TTL lapses, and a counter that is alive when drawn from: tokens strictly
      increase in the order SET succeeded, and once the tracker has accepted a
      write of one hold it never again accepts one of an earlier hold. */
  lemma FencingOrder(states: seq<System>, acts: seq<Action>, ttl: int, n: nat)
    requires 0 < ttl && Run(states, acts, ttl, STRICT) && n < |states|
    ensures TokensIncrease(states[n]) && AcceptedInOrder(states[n])
  {
    forall k | 0 <= k < n && acts[k].Draw?
      ensures InTurn(states[k], acts[k].i)
    {
      assert Step(states[k], acts[k], states[k + 1], ttl, STRICT);
      UniqueOwnersAreSafe(states, acts, ttl, STRICT, k);
      LedgerHolds(states, acts, ttl, STRICT, k);
      ReleasedHaveTokens(states, acts, ttl, STRICT, k, acts[k].i);
      InTimeIsInTurn(states[k], acts[k].i, ttl);
    }
    TokenOrderIff(states, acts, ttl, STRICT, n);
  }

  // --- The counter's own expiry ---------------------------------------

  ghost predicate CounterInv(s: System, ttl: int) {
    && (forall i :: 0 <= i < |s.holds| ==> s.holds[i].setAt <= s.now)
    && (forall i :: 0 <= i < |s.holds| && s.holds[i].complete ==>
                      && s.keys.counter.Some?
                      && (s.keys.counter.value.expiresAt.Some? ==>
                            s.holds[i].setAt + 50 * ttl <= s.keys.counter.value.expiresAt.value))
  }

  lemma CounterStep(s: System, a: Action, ttl: int, rules: Rules)
    requires 0 < ttl && rules.stampAlive && CounterInv(s, ttl) && Enabled(s, a) && Obeys(s, a, ttl, rules)
    ensures CounterInv(Next(s, a, ttl), ttl)
  {
    CounterTtlDwarfsLockTtl(ttl);
  }

  /** If EXPIRE always finds the counter it is meant to extend, the counter of
      every completed hold is alive for at least fifty lock TTLs after its SET,
      so no completed hold that is still active outlasts it. */
  lemma {:induction false} CounterOutlivesHolds(states: seq<System>, acts: seq<Action>, ttl: int, rules: Rules, n: nat)
    requires 0 < ttl && rules.stampAlive && Run(states, acts, ttl, rules) && n < |states|
    ensures CounterInv(states[n], ttl)
    ensures forall i | 0 <= i < |states[n].holds| && states[n].holds[i].complete ::
              states[n].now < states[n].holds[i].setAt + 50 * ttl ==> CounterLive(states[n].keys, states[n].now)
  {
    if n > 0 {
      CounterOutlivesHolds(states, acts, ttl, rules, n - 1);
      CounterStep(states[n - 1], acts[n - 1], ttl, rules);
    }
  }

  // A hold whose holder can use it: complete, unexpired and unreleased.
  predicate InUse(s: System, i: nat, ttl: int) {
    i < |s.holds| && s.holds[i].complete && Active(s, i, ttl)
  }

  ghost predicate NoHoldOutlasts(s: System, ttl: int) {
    forall i :: 0 <= i < |s.holds| && InUse(s, i, ttl) ==> CounterLive(s.keys, s.now)
  }

  // The counter is there to stay for every hold in use.
  ghost predicate CounterCovers(s: System, ttl: int) {
    && (forall i :: 0 <= i < |s.holds| ==> s.holds[i].setAt <= s.now)
    && (forall i :: 0 <= i < |s.holds| && InUse(s, i, ttl) ==>
                      && s.keys.counter.Some?
                      && (s.keys.counter.value.expiresAt.Some? ==>
                            s.holds[i].setAt + 50 * ttl <= s.keys.counter.value.expiresAt.value))
  }

  // EXPIRE for a hold that is still active finds its counter.
  predicate StampFinds(s: System, i: nat, ttl: int)
    requires i < |s.holds|
  {
    Active(s, i, ttl) ==> CounterLive(s.keys, s.now)
  }

  lemma CoversMeansAlive(s: System, ttl: int)
    requires 0 < ttl && CounterCovers(s, ttl)
    ensures NoHoldOutlasts(s, ttl)
  {
    forall i | 0 <= i < |s.holds| && InUse(s, i, ttl)
      ensures CounterLive(s.keys, s.now)
    {
      assert s.now < s.holds[i].setAt + 50 * ttl;
    }
  }

  /** With no rule assumed: only an EXPIRE that finds its counter lapsed lets a
      completed live hold outlast the counter, and for an active hold it always does. */
  lemma OutlastStepIff(s: System, a: Action, ttl: int)
    requires 0 < ttl && CounterCovers(s, ttl) && Enabled(s, a)
    ensures NoHoldOutlasts(Next(s, a, ttl), ttl) <==> (a.Stamp? ==> StampFinds(s, a.i, ttl))
    ensures NoHoldOutlasts(Next(s, a, ttl), ttl) ==> CounterCovers(Next(s, a, ttl), ttl)
  {
    var t := Next(s, a, ttl);
    CounterTtlDwarfsLockTtl(ttl);
    if a.Stamp? && !StampFinds(s, a.i, ttl) {
      assert InUse(t, a.i, ttl);
    } else {
      CoversMeansAlive(s, ttl);
      forall i | 0 <= i < |t.holds| && InUse(t, i, ttl)
        ensures t.keys.counter.Some?
        ensures t.keys.counter.value.expiresAt.Some? ==> t.holds[i].setAt + 50 * ttl <= t.keys.counter.value.expiresAt.value
      {
        assert InUse(s, i, ttl) || a == Stamp(i);
      }
      CoversMeansAlive(t, ttl);
    }
  }

  ghost predicate NoneOutlastUpTo(states: seq<System>, ttl: int, n: nat)
    requires n < |states|
  {
    forall k :: 0 <= k <= n ==> NoHoldOutlasts(states[k], ttl)
  }

  ghost predicate StampsFindUpTo(states: seq<System>, acts: seq<Action>, ttl: int, n: nat)
    requires n <= |acts| < |states|
  {
    forall k :: 0 <= k < n && acts[k].Stamp? && acts[k].i < |states[k].holds| ==> StampFinds(states[k], acts[k].i, ttl)
  }

  /** With no rule assumed: no completed live hold ever outlasts the counter it
      drew from, all through a run, exactly when every EXPIRE on behalf of an
      active hold finds the counter alive. */
  lemma {:induction false} OutlastIff(states: seq<System>, acts: seq<Action>, ttl: int, rules: Rules, n: nat)
    requires 0 < ttl && Run(states, acts, ttl, rules) && n < |states|
    ensures NoneOutlastUpTo(states, ttl, n) <==> StampsFindUpTo(states, acts, ttl, n)
    ensures NoneOutlastUpTo(states, ttl, n) ==> CounterCovers(states[n], ttl)
  {
    if n > 0 {
      OutlastIff(states, acts, ttl, rules, n - 1);
      assert Step(states[n - 1], acts[n - 1], states[n], ttl, rules);
      if NoneOutlastUpTo(states, ttl, n - 1) {
        OutlastStepIff(states[n - 1], acts[n - 1], ttl);
      }
    }
  }

  // --- Why each assumption is needed ----------------------------------

  lemma Extend(states: seq<System>, acts: seq<Action>, ttl: int, rules: Rules, a: Action, t: System)
    requires Run(states, acts, ttl, rules) && Step(states[|acts|], a, t, ttl, rules)
    ensures Run(states + [t], acts + [a], ttl, rules)
  {
  }

  // Hold b takes over from hold a, which stalled between its SET and its INCR.
  const TAKEOVER: seq<Action> := [SetLock("a"), Tick(30_000), SetLock("b"), Draw(1), Stamp(1)]
  const STALE_WRITE: seq<Action> := [Write(1), Draw(0), Stamp(0), Write(0)]

  const AFTER_TAKEOVER :=
    System(30_000, Keys(Some(LockEntry("b", 60_000)), Some(Counter(1, Some(3_030_000)))),
           [Hold("a", 0, None, false, false), Hold("b", 30_000, Some(1), true, false)], 0, [])

  lemma Takeover() returns (states: seq<System>)
    ensures Run(states, TAKEOVER, 30_000, Rules(true, false, true, true)) && states[5] == AFTER_TAKEOVER
  {
    var a, b := Hold("a", 0, None, false, false), Hold("b", 30_000, None, false, false);
    var s1 := System(0, Keys(Some(LockEntry("a", 30_000)), None), [a], 0, []);
    var s3 := System(30_000, Keys(Some(LockEntry("b", 60_000)), None), [a, b], 0, []);
    var s4 := s3.(keys := s3.keys.(counter := Some(Counter(1, None))), holds := [a, b.(token := Some(1))]);
    states := [INIT, s1, s1.(now := 30_000), s3, s4, AFTER_TAKEOVER];
  }

  /** A client that stalls between SET and INCR past its own TTL draws a higher
      token than its successor, and its stale write is accepted after the
      successor's, although every other rule is kept. */
  lemma StallBeforeIncrInvertsTokens() returns (states: seq<System>)
    ensures Run(states, TAKEOVER + STALE_WRITE, 30_000, Rules(true, false, true, true))
    ensures !TokensIncrease(states[9]) && states[9].accepted == [1, 0]
  {
    var rules := Rules(true, false, true, true);
    var b := AFTER_TAKEOVER.holds[1];
    var a := Hold("a", 0, Some(2), false, false);
    var s6 := AFTER_TAKEOVER.(lastSeen := 1, accepted := [1]);
    var s7 := s6.(keys := s6.keys.(counter := Some(Counter(2, Some(3_030_000)))), holds := [a, b]);
    var s8 := s7.(holds := [a.(complete := true), b]);
    var s9 := s8.(lastSeen := 2, accepted := [1, 0]);
    states := Takeover();
    Extend(states, TAKEOVER, 30_000, rules, Write(1), s6);
    Extend(states + [s6], TAKEOVER + [Write(1)], 30_000, rules, Draw(0), s7);
    Extend(states + [s6] + [s7], TAKEOVER + [Write(1)] + [Draw(0)], 30_000, rules, Stamp(0), s8);
    Extend(states + [s6] + [s7] + [s8], TAKEOVER + [Write(1)] + [Draw(0)] + [Stamp(0)], 30_000, rules, Write(0), s9);
    states := states + [s6] + [s7] + [s8] + [s9];
    assert TAKEOVER + STALE_WRITE == TAKEOVER + [Write(1)] + [Draw(0)] + [Stamp(0)] + [Write(0)];
    assert s9.holds[0].token == Some(2) && s9.holds[1].token == Some(1);
  }

  const FIRST_HOLD: seq<Action> := [SetLock("a"), Draw(0), Stamp(0)]

  const AFTER_FIRST :=
    System(0, Keys(Some(LockEntry("a", 30_000)), Some(Counter(1, Some(3_000_000)))),
           [Hold("a", 0, Some(1), true, false)], 0, [])

  lemma FirstHold(rules: Rules) returns (states: seq<System>)
    ensures Run(states, FIRST_HOLD, 30_000, rules) && states[3] == AFTER_FIRST
  {
    var a := Hold("a", 0, None, false, false);
    var s1 := System(0, Keys(Some(LockEntry("a", 30_000)), None), [a], 0, []);
    var s2 := s1.(keys := s1.keys.(counter := Some(Counter(1, None))), holds := [a.(token := Some(1))]);
    states := [INIT, s1, s2, AFTER_FIRST];
  }

  const LATE_STAMP: seq<Action> := [Tick(2_999_990), SetLock("b"), Draw(1), Tick(20), Stamp(1)]

  /** The counter lapses between a timely holder's INCR and its EXPIRE, which then
      does nothing: a completed live hold has outlasted the counter, although
      every other rule is kept. */
  lemma StallBeforeExpireLosesCounter() returns (states: seq<System>)
    ensures Run(states, FIRST_HOLD + LATE_STAMP, 30_000, Rules(true, true, true, false))
    ensures var s := states[8];
            InUse(s, 1, 30_000) && !CounterLive(s.keys, s.now) && !NoHoldOutlasts(s, 30_000)
  {
    var rules := Rules(true, true, true, false);
    var lock := Some(LockEntry("b", 3_029_990));
    var s4 := AFTER_FIRST.(now := 2_999_990);
    var b := Hold("b", 2_999_990, None, false, false);
    var s5 := s4.(keys := Keys(lock, s4.keys.counter), holds := s4.holds + [b]);
    var s6 := s5.(keys := Keys(lock, Some(Counter(2, Some(3_000_000)))), holds := s4.holds + [b.(token := Some(2))]);
    var s7 := s6.(now := 3_000_010);
    var s8 := s7.(holds := s4.holds + [b.(token := Some(2), complete := true)]);
    states := FirstHold(rules);
    Extend(states, FIRST_HOLD, 30_000, rules, Tick(2_999_990), s4);
    Extend(states + [s4], FIRST_HOLD + [Tick(2_999_990)], 30_000, rules, SetLock("b"), s5);
    Extend(states + [s4] + [s5], FIRST_HOLD + [Tick(2_999_990)] + [SetLock("b")], 30_000, rules, Draw(1), s6);
    Extend(states + [s4] + [s5] + [s6], FIRST_HOLD + [Tick(2_999_990)] + [SetLock("b")] + [Draw(1)], 30_000, rules, Tick(20), s7);
    Extend(states + [s4] + [s5] + [s6] + [s7], FIRST_HOLD + [Tick(2_999_990)] + [SetLock("b")] + [Draw(1)] + [Tick(20)],
           30_000, rules, Stamp(1), s8);
    states := states + [s4] + [s5] + [s6] + [s7] + [s8];
    assert FIRST_HOLD + LATE_STAMP
        == FIRST_HOLD + [Tick(2_999_990)] + [SetLock("b")] + [Draw(1)] + [Tick(20)] + [Stamp(1)];
    assert InUse(s8, 1, 30_000);
  }

  const SECOND_WRITES: seq<Action> := [Release(0), SetLock("b"), Draw(1), Stamp(1), Write(1)]
  const IDLE_THEN_THIRD: seq<Action> := [Tick(3_000_000), SetLock("c"), Draw(2), Stamp(2), Write(2)]

  const AFTER_SECOND :=
    System(0, Keys(Some(LockEntry("b", 30_000)), Some(Counter(2, Some(3_000_000)))),
           [Hold("a", 0, Some(1), true, true), Hold("b", 0, Some(2), true, false)], 2, [1])

  lemma SecondWrites() returns (states: seq<System>)
    ensures Run(states, FIRST_HOLD + SECOND_WRITES, 30_000, Rules(true, true, false, true)) && states[8] == AFTER_SECOND
  {
    var rules := Rules(true, true, false, true);
    var a, b := AFTER_SECOND.holds[0], Hold("b", 0, None, false, false);
    var lock := AFTER_SECOND.keys.lock;
    var s4 := AFTER_FIRST.(keys := Keys(None, AFTER_FIRST.keys.counter), holds := [a]);
    var s5 := s4.(keys := Keys(lock, s4.keys.counter), holds := [a, b]);
    var s6 := s5.(keys := AFTER_SECOND.keys, holds := [a, b.(token := Some(2))]);
    var s7 := s6.(holds := [a, b.(token := Some(2), complete := true)]);
    states := FirstHold(rules);
    Extend(states, FIRST_HOLD, 30_000, rules, Release(0), s4);
    Extend(states + [s4], FIRST_HOLD + [Release(0)], 30_000, rules, SetLock("b"), s5);
    Extend(states + [s4] + [s5], FIRST_HOLD + [Release(0)] + [SetLock("b")], 30_000, rules, Draw(1), s6);
    Extend(states + [s4] + [s5] + [s6], FIRST_HOLD + [Release(0)] + [SetLock("b")] + [Draw(1)], 30_000, rules, Stamp(1), s7);
    Extend(states + [s4] + [s5] + [s6] + [s7], FIRST_HOLD + [Release(0)] + [SetLock("b")] + [Draw(1)] + [Stamp(1)],
           30_000, rules, Write(1), AFTER_SECOND);
    states := states + [s4] + [s5] + [s6] + [s7] + [AFTER_SECOND];
    assert FIRST_HOLD + SECOND_WRITES == FIRST_HOLD + [Release(0)] + [SetLock("b")] + [Draw(1)] + [Stamp(1)] + [Write(1)];
  }

  /** A resource left alone for one counter TTL starts again at token 1, while the
      tracker remembers: the write of its only and timely holder is refused. */
  lemma IdleResourceRefusesItsHolder() returns (states: seq<System>)
    ensures Run(states, FIRST_HOLD + SECOND_WRITES + IDLE_THEN_THIRD, 30_000, Rules(true, true, false, true))
    ensures var s := states[13];
            InUse(s, 2, 30_000) && s.holds[2].token == Some(1) && s.accepted == [1] && !TokensIncrease(s)
  {
    var rules := Rules(true, true, false, true);
    var before, c := FIRST_HOLD + SECOND_WRITES, Hold("c", 3_000_000, None, false, false);
    var lock := Some(LockEntry("c", 3_030_000));
    var old2 := AFTER_SECOND.holds;
    var s9 := AFTER_SECOND.(now := 3_000_000);
    var s10 := s9.(keys := Keys(lock, s9.keys.counter), holds := old2 + [c]);
    var s11 := s10.(keys := Keys(lock, Some(Counter(1, None))), holds := old2 + [c.(token := Some(1))]);
    var s12 := s11.(keys := Keys(lock, Some(Counter(1, Some(6_000_000)))), holds := old2 + [c.(token := Some(1), complete := true)]);
    states := SecondWrites();
    Extend(states, before, 30_000, rules, Tick(3_000_000), s9);
    Extend(states + [s9], before + [Tick(3_000_000)], 30_000, rules, SetLock("c"), s10);
    Extend(states + [s9] + [s10], before + [Tick(3_000_000)] + [SetLock("c")], 30_000, rules, Draw(2), s11);
    Extend(states + [s9] + [s10] + [s11], before + [Tick(3_000_000)] + [SetLock("c")] + [Draw(2)], 30_000, rules, Stamp(2), s12);
    Extend(states + [s9] + [s10] + [s11] + [s12], before + [Tick(3_000_000)] + [SetLock("c")] + [Draw(2)] + [Stamp(2)],
           30_000, rules, Write(2), s12);
    states := states + [s9] + [s10] + [s11] + [s12] + [s12];
    assert before + IDLE_THEN_THIRD == before + [Tick(3_000_000)] + [SetLock("c")] + [Draw(2)] + [Stamp(2)] + [Write(2)];
    assert s12.holds[1].token == Some(2) && s12.holds[2].token == Some(1);
  }

  /** `DistributedLock.Acquire` is the interleaving in which nothing comes
      between the three commands, and the token it returns is the one drawn. */
  lemma UninterruptedAcquire(s: System, owner: string, ttl: int)
    requires !LockLive(s.keys, s.now)
    ensures var n := |s.holds|;
            var held := Next(s, SetLock(owner), ttl);
            Enabled(held, Draw(n)) &&
            var drawn := Next(held, Draw(n), ttl);
            Enabled(drawn, Stamp(n)) &&
            var end := Next(drawn, Stamp(n), ttl);
            && end.keys == Expire(Incr(SetNx(s.keys, owner, s.now, ttl), s.now), s.now, ttl)
            && end.keys.counter.Some?
            && end.holds == s.holds + [Hold(owner, s.now, Some(end.keys.counter.value.value), true, false)]
  {
    var drawn := Next(Next(s, SetLock(owner), ttl), Draw(|s.holds|), ttl);
    assert CounterLive(drawn.keys, s.now);
  }

  // Worker a takes the lock twice under one id; its first release comes late.
  const REUSED_ID: seq<Action> := [SetLock("a"), Draw(0), Stamp(0), Tick(30_000), SetLock("a")]
  const LATE_RELEASE: seq<Action> := [Release(0), SetLock("b")]

  lemma Reuse() returns (states: seq<System>)
    ensures Run(states, REUSED_ID, 30_000, Rules(false, true, true, true))
    ensures states[5] == System(30_000, Keys(Some(LockEntry("a", 60_000)), Some(Counter(1, Some(3_000_000)))),
                                [Hold("a", 0, Some(1), true, false), Hold("a", 30_000, None, false, false)], 0, [])
  {
    var a := Hold("a", 0, None, false, false);
    var s1 := System(0, Keys(Some(LockEntry("a", 30_000)), None), [a], 0, []);
    var s2 := s1.(keys := s1.keys.(counter := Some(Counter(1, None))), holds := [a.(token := Some(1))]);
    var s3 := s1.(keys := s1.keys.(counter := Some(Counter(1, Some(3_000_000)))),
                  holds := [a.(token := Some(1), complete := true)]);
    var s5 := System(30_000, Keys(Some(LockEntry("a", 60_000)), s3.keys.counter),
                     s3.holds + [Hold("a", 30_000, None, false, false)], 0, []);
    states := [INIT, s1, s2, s3, s3.(now := 30_000), s5];
  }

  /** Release compares owner ids only, so an id used for two holds lets the
      late release of the first free the second: two holds are then active. */
  lemma ReusedOwnerBreaksExclusion() returns (states: seq<System>)
    ensures Run(states, REUSED_ID + LATE_RELEASE, 30_000, Rules(false, true, true, true))
    ensures |states[7].holds| == 3 && Active(states[7], 1, 30_000) && Active(states[7], 2, 30_000)
  {
    var rules := Rules(false, true, true, true);
    states := Reuse();
    var s6 := Next(states[5], Release(0), 30_000);
    var s7 := Next(s6, SetLock("b"), 30_000);
    Extend(states, REUSED_ID, 30_000, rules, Release(0), s6);
    Extend(states + [s6], REUSED_ID + [Release(0)], 30_000, rules, SetLock("b"), s7);
    states := states + [s6] + [s7];
    assert REUSED_ID + LATE_RELEASE == REUSED_ID + [Release(0)] + [SetLock("b")];
  }
}
