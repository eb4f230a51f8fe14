/** The sliding-window rate limiter (`rate_limiter.py`). Times are integer
    microseconds; the client's clock and Redis' clock are taken to agree. */
module RateLimiter {
  import opened Common
  import opened TimeWindow

  const SECOND := 1_000_000
  const MILLISECOND := 1_000

  /** A sorted set of request times and the time its key expires. The unique
      member names keep equal scores apart, so the set is a sorted list. */
  datatype ZSet = ZSet(scores: seq<int>, expiresAt: int)

  function Live(z: Option<ZSet>, now: int): seq<int> {
    if z.Some? && now < z.value.expiresAt then z.value.scores else []
  }

  // ZREMRANGEBYSCORE key -inf (now - window)
  function Kept(z: Option<ZSet>, window: int, now: int): seq<int> {
    Since(Live(z, now), now - window + 1)
  }

  // ZADD
  function Insert(scores: seq<int>, t: int): seq<int> {
    if scores == [] || scores[|scores| - 1] <= t then scores + [t]
    else Insert(scores[..|scores| - 1], t) + [scores[|scores| - 1]]
  }

  predicate Allows(z: Option<ZSet>, limit: int, window: int, now: int) {
    |Kept(z, window, now)| < limit
  }

  // The state the script leaves behind; Redis drops a set that becomes empty.
  function AfterCheck(z: Option<ZSet>, limit: int, window: int, now: int): Option<ZSet> {
    var kept := Kept(z, window, now);
    if |kept| < limit then Some(ZSet(Insert(kept, now), now + window))
    else if kept == [] then None
    else Some(ZSet(kept, z.value.expiresAt))
  }

  datatype RateLimitResult = RateLimitResult(allowed: bool, remaining: int, retryAfterMs: int)

  function RetryAfterMs(z: Option<ZSet>, window: int, now: int): int {
    var live := Live(z, now);
    if live == [] then 0 else Max(0, live[0] + window - now) / MILLISECOND
  }

  function Verdict(z: Option<ZSet>, limit: int, window: int, now: int): RateLimitResult {
    var n := |Kept(z, window, now)|;
    if n < limit then RateLimitResult(true, Max(limit - (n + 1), 0), 0)
    else RateLimitResult(false, Max(limit - n, 0), RetryAfterMs(AfterCheck(z, limit, window, now), window, now))
  }

  class RateLimiter {
    var zsets: map<string, ZSet>

    function At(key: string): Option<ZSet>
      reads this
    {
      if key in zsets then Some(zsets[key]) else None
    }

    constructor ()
      ensures forall k :: At(k) == None
    {
      zsets := map[];
    }

    method Check(key: string, limit: int, windowSeconds: int, now: int) returns (r: RateLimitResult)
      modifies this
      ensures r == old(Verdict(At(key), limit, windowSeconds * SECOND, now))
      ensures At(key) == old(AfterCheck(At(key), limit, windowSeconds * SECOND, now))
      ensures forall k :: k != key ==> At(k) == old(At(k))
    {
      var window := windowSeconds * SECOND;
      var z := At(key);
      var kept := Kept(z, window, now);
      var count := |kept|;
      if count < limit {
        zsets := zsets[key := ZSet(Insert(kept, now), now + window)];
        return RateLimitResult(true, Max(limit - (count + 1), 0), 0);
      }
      zsets := if kept == [] then zsets - {key} else zsets[key := ZSet(kept, z.value.expiresAt)];
      return RateLimitResult(false, Max(limit - count, 0), RetryAfterMs(At(key), window, now));
    }
  }

  // ------------------------------------------------------------------
  // Agreement with the unpruned history
  // ------------------------------------------------------------------

  // `h` once a request at `now` has been decided by the whole history.
  function Decided(h: seq<int>, limit: int, window: int, now: int): seq<int> {
    if |Since(h, now - window + 1)| < limit then h + [now] else h
  }

  // Every request ever admitted; nothing is pruned and nothing expires.
  function History(times: seq<int>, limit: int, window: int): seq<int> {
    if times == [] then []
    else Decided(History(times[..|times| - 1], limit, window), limit, window, times[|times| - 1])
  }

  function RunLimiter(times: seq<int>, limit: int, window: int): Option<ZSet> {
    if times == [] then None
    else AfterCheck(RunLimiter(times[..|times| - 1], limit, window), limit, window, times[|times| - 1])
  }

  predicate EndsBy(h: seq<int>, bound: int) {
    h == [] || h[|h| - 1] <= bound
  }

  /** The stored set is the end of the history, what it lacks is out of every
      later window, and the key expires only when nothing counts any more. */
  ghost predicate Represents(z: Option<ZSet>, h: seq<int>, window: int, now: int) {
    && Ascending(h, now)
    && (z.None? ==> EndsBy(h, now - window))
    && (z.Some? ==>
          && h != [] && z.value.expiresAt == h[|h| - 1] + window
          && TailOf(h, z.value.scores, now - window + 1))
  }

  // A history that has wholly left the window counts for nothing.
  lemma AllStale(h: seq<int>, now: int, from: int)
    requires Ascending(h, now) && EndsBy(h, from - 1)
    ensures TailOf(h, [], from)
  {
    forall i | 0 <= i < |h|
      ensures h[i] < from
    {
      InOrder(h, now, i, |h| - 1);
    }
  }

  lemma LiveIsTail(z: Option<ZSet>, h: seq<int>, window: int, before: int, now: int)
    requires Represents(z, h, window, before) && before <= now
    ensures Ascending(h, now) && TailOf(h, Live(z, now), now - window + 1)
  {
    if z.None? || z.value.expiresAt <= now {
      AllStale(h, now, now - window + 1);
    }
  }

  // What the script counts is the history from some place k on, and nothing else is in the window.
  lemma KeptMatches(z: Option<ZSet>, h: seq<int>, window: int, before: int, now: int) returns (k: nat)
    requires Represents(z, h, window, before) && before <= now
    ensures CutsAt(h, k, now - window + 1)
    ensures Kept(z, window, now) == h[k..] && Since(h, now - window + 1) == h[k..]
  {
    LiveIsTail(z, h, window, before, now);
    k := ForgettingIsHarmless(h, now, Live(z, now), now - window + 1);
  }

  lemma InsertLast(scores: seq<int>, t: int)
    requires EndsBy(scores, t)
    ensures Insert(scores, t) == scores + [t]
  {
  }

  /** A sorted set stays one, whatever the order in which requests reach it. */
  lemma {:induction false} InsertSorts(scores: seq<int>, bound: int, t: int)
    requires Ascending(scores, bound)
    ensures Ascending(Insert(scores, t), Max(bound, t)) && multiset(Insert(scores, t)) == multiset(scores) + multiset{t}
  {
    if scores != [] && t < scores[|scores| - 1] {
      var n := |scores| - 1;
      InsertSorts(scores[..n], scores[n], t);
      assert scores == scores[..n] + [scores[n]];
      assert Insert(scores, t)[..|Insert(scores, t)| - 1] == Insert(scores[..n], t);
    } else {
      assert (scores + [t])[..|scores|] == scores;
    }
  }

  lemma AdmitMatches(z: Option<ZSet>, h: seq<int>, limit: int, window: int, now: int)
    requires Represents(z, h, window, now) && Allows(z, limit, window, now)
    ensures Represents(AfterCheck(z, limit, window, now), h + [now], window, now)
  {
    var k := KeptMatches(z, h, window, now, now);
    assert EndsBy(h[k..], now);
    InsertLast(h[k..], now);
    TailFrom(h, k, now - window + 1);
    TailGrows(h, h[k..], now - window + 1, now);
    Append(h, now, now);
  }

  lemma RefuseMatches(z: Option<ZSet>, h: seq<int>, limit: int, window: int, now: int)
    requires Represents(z, h, window, now) && !Allows(z, limit, window, now)
    ensures Represents(AfterCheck(z, limit, window, now), h, window, now)
  {
    var k := KeptMatches(z, h, window, now, now);
    TailFrom(h, k, now - window + 1);
    assert h != [] && k == |h| ==> h[|h| - 1] <= now - window;
  }

  lemma CheckMatches(z: Option<ZSet>, h: seq<int>, limit: int, window: int, now: int)
    requires Represents(z, h, window, now)
    ensures Allows(z, limit, window, now) <==> |Since(h, now - window + 1)| < limit
    ensures Represents(AfterCheck(z, limit, window, now), Decided(h, limit, window, now), window, now)
  {
    var k := KeptMatches(z, h, window, now, now);
    if Allows(z, limit, window, now) {
      AdmitMatches(z, h, limit, window, now);
    } else {
      RefuseMatches(z, h, limit, window, now);
    }
  }

  lemma {:induction false} RunRepresents(times: seq<int>, limit: int, window: int, now: int)
    requires Ascending(times, now)
    ensures Represents(RunLimiter(times, limit, window), History(times, limit, window), window, now)
  {
    if times != [] {
      var n := |times| - 1;
      var z, h := RunLimiter(times[..n], limit, window), History(times[..n], limit, window);
      RunRepresents(times[..n], limit, window, times[n]);
      CheckMatches(z, h, limit, window, times[n]);
      Later(RunLimiter(times, limit, window), History(times, limit, window), window, times[n], now);
    }
  }

  /** With a fixed limit and window and non-decreasing times, the pruned and
      expiring set decides every request as the whole history would. */
  lemma AgreesWithHistory(times: seq<int>, limit: int, window: int, now: int)
    requires Ascending(times, now)
    ensures Allows(RunLimiter(times, limit, window), limit, window, now) <==>
            |Since(History(times, limit, window), now - window + 1)| < limit
  {
    RunRepresents(times, limit, window, now);
    CheckMatches(RunLimiter(times, limit, window), History(times, limit, window), limit, window, now);
  }

  /** The verdict is the truth about the requests admitted before it and after it:
      one more if it allows, and then no waiting; `remaining` is what the limit
      leaves over those then in the window. */
  ghost predicate Truthful(v: RateLimitResult, before: seq<int>, after: seq<int>, limit: int, window: int, now: int) {
    && after == (if v.allowed then before + [now] else before)
    && v.remaining == Max(limit - |Since(after, now - window + 1)|, 0)
    && (v.allowed ==> v.retryAfterMs == 0)
  }

  lemma VerdictFits(z: Option<ZSet>, h: seq<int>, limit: int, window: int, now: int)
    requires Represents(z, h, window, now) && 0 < window
    ensures Truthful(Verdict(z, limit, window, now), h, Decided(h, limit, window, now), limit, window, now)
  {
    var k := KeptMatches(z, h, window, now, now);
    assert (h + [now])[..|h|] == h;
  }

  lemma HistoryDecides(times: seq<int>, limit: int, window: int, now: int)
    ensures History(times + [now], limit, window) == Decided(History(times, limit, window), limit, window, now)
  {
    assert (times + [now])[..|times|] == times;
  }

  /** In every run each verdict is truthful about the full history. */
  lemma VerdictMeans(times: seq<int>, limit: int, window: int, now: int)
    requires Ascending(times, now) && 0 < window
    ensures Truthful(Verdict(RunLimiter(times, limit, window), limit, window, now),
                     History(times, limit, window), History(times + [now], limit, window), limit, window, now)
  {
    RunRepresents(times, limit, window, now);
    VerdictFits(RunLimiter(times, limit, window), History(times, limit, window), limit, window, now);
    HistoryDecides(times, limit, window, now);
  }

  lemma Later(z: Option<ZSet>, h: seq<int>, window: int, before: int, now: int)
    requires Represents(z, h, window, before) && before <= now
    ensures Represents(z, h, window, now)
  {
  }

  // ------------------------------------------------------------------
  // The bound the limiter is for
  // ------------------------------------------------------------------

  function CountIn(ts: seq<int>, lo: int, hi: int): nat {
    if ts == [] then 0
    else CountIn(ts[..|ts| - 1], lo, hi) + if lo <= ts[|ts| - 1] < hi then 1 else 0
  }

  // The stamps inside an interval are consecutive.
  lemma {:induction false} BlockIn(ts: seq<int>, bound: int, lo: int, hi: int) returns (a: nat, b: nat)
    requires Ascending(ts, bound)
    ensures a <= b <= |ts| && b - a == CountIn(ts, lo, hi)
    ensures forall i :: a <= i < b ==> lo <= ts[i] < hi
    ensures a < b < |ts| ==> hi <= ts[|ts| - 1]
  {
    if ts == [] {
      a, b := 0, 0;
    } else {
      var n := |ts| - 1;
      a, b := BlockIn(ts[..n], ts[n], lo, hi);
      if lo <= ts[n] < hi {
        if a == b {
          a, b := n, n;
        }
        b := b + 1;
      }
    }
  }

  /** Any `limit` + 1 successive admissions span at least the window. */
  predicate Spaced(h: seq<int>, limit: nat, window: int) {
    h == [] ||
    var n := |h| - 1;
    Spaced(h[..n], limit, window) && (limit <= n ==> h[n] - h[n - limit] >= window)
  }

  lemma {:induction false} SpacedAt(h: seq<int>, limit: nat, window: int, i: nat)
    requires Spaced(h, limit, window) && limit <= i < |h|
    ensures h[i] - h[i - limit] >= window
  {
    if i < |h| - 1 {
      SpacedAt(h[..|h| - 1], limit, window, i);
    }
  }

  // Entries that fit into one window number at most `limit`.
  lemma SpacedBlock(h: seq<int>, limit: nat, window: int, from: int, a: nat, b: nat)
    requires a <= b <= |h| && Spaced(h, limit, window)
    requires forall i :: a <= i < b ==> from <= h[i] < from + window
    ensures b - a <= limit
  {
    if a + limit < |h| {
      SpacedAt(h, limit, window, a + limit);
    }
  }

  lemma SpacedGrows(h: seq<int>, limit: nat, window: int, now: int)
    requires Ascending(h, now) && Spaced(h, limit, window) && |Since(h, now - window + 1)| < limit
    ensures Spaced(h + [now], limit, window)
  {
    var k := CutOff(h, now, now - window + 1);
    SinceDropsPrefix(h, now - window + 1, k);
    var grown := h + [now];
    assert grown[..|h|] == h;
    assert limit <= |h| ==> grown[|h| - limit] == h[|h| - limit] <= now - window;
  }

  lemma {:induction false} HistorySpaced(times: seq<int>, limit: int, window: int, now: int)
    requires Ascending(times, now)
    ensures Ascending(History(times, limit, window), now)
    ensures 0 < limit ==> Spaced(History(times, limit, window), limit, window)
    ensures limit <= 0 ==> History(times, limit, window) == []
  {
    if times != [] {
      var n := |times| - 1;
      var h := History(times[..n], limit, window);
      HistorySpaced(times[..n], limit, window, times[n]);
      if |Since(h, times[n] - window + 1)| < limit {
        SpacedGrows(h, limit, window, times[n]);
        Append(h, times[n], times[n]);
      }
    }
  }

  /** Every half-open interval as long as the window holds at most `limit`
      admitted requests. */
  lemma WindowBound(times: seq<int>, limit: int, window: int, now: int, from: int)
    requires Ascending(times, now)
    ensures CountIn(History(times, limit, window), from, from + window) <= Max(limit, 0)
  {
    var h := History(times, limit, window);
    HistorySpaced(times, limit, window, now);
    var a, b := BlockIn(h, now, from, from + window);
    if 0 < limit {
      SpacedBlock(h, limit, window, from, a, b);
    }
  }

  // ------------------------------------------------------------------
  // The retry hint
  // ------------------------------------------------------------------

  // No more than `limit` requests are ever inside the window.
  lemma AtMostLimit(h: seq<int>, limit: nat, window: int, now: int, k: nat)
    requires Ascending(h, now) && Spaced(h, limit, window) && CutsAt(h, k, now - window + 1)
    ensures |h| - k <= limit
  {
    forall i | k <= i < |h|
      ensures now - window + 1 <= h[i] < now + 1
    {
      InOrder(h, now, i, i);
    }
    SpacedBlock(h, limit, window, now - window + 1, k, |h|);
  }

  lemma RefusalStaysLive(z: Option<ZSet>, limit: nat, window: int, now: int)
    requires 0 < limit && !Allows(z, limit, window, now)
    ensures Live(AfterCheck(z, limit, window, now), now) == Kept(z, window, now)
  {
    assert Live(z, now) != [];
  }

  // So a refusal counts exactly `limit` of them, and keeps them all.
  lemma RefusalMeansFull(z: Option<ZSet>, h: seq<int>, limit: nat, window: int, now: int)
    requires 0 < limit && Represents(z, h, window, now) && Spaced(h, limit, window) && !Allows(z, limit, window, now)
    ensures limit <= |h| && CutsAt(h, |h| - limit, now - window + 1)
    ensures Live(AfterCheck(z, limit, window, now), now) == h[|h| - limit..]
  {
    var k := KeptMatches(z, h, window, now, now);
    AtMostLimit(h, limit, window, now, k);
    RefusalStaysLive(z, limit, window, now);
  }

  lemma RetryAfterRefusal(z: Option<ZSet>, h: seq<int>, limit: nat, window: int, now: int, later: int)
    requires 0 < limit && now <= later
    requires Represents(z, h, window, now) && Spaced(h, limit, window) && !Allows(z, limit, window, now)
    ensures limit <= |h| && Live(AfterCheck(z, limit, window, now), now) == h[|h| - limit..]
    ensures now < h[|h| - limit] + window
    ensures Allows(AfterCheck(z, limit, window, now), limit, window, later) <==> h[|h| - limit] + window <= later
  {
    RefusalMeansFull(z, h, limit, window, now);
    RefuseMatches(z, h, limit, window, now);
    var k := KeptMatches(AfterCheck(z, limit, window, now), h, window, now, later);
  }

  /** After a refusal, and with no other request in between, a retry at `later`
      succeeds exactly when the oldest counted request has left the window. */
  lemma RetrySucceedsIff(times: seq<int>, limit: int, window: int, now: int, later: int)
    requires Ascending(times, now) && now <= later && 0 < limit
    requires !Allows(RunLimiter(times, limit, window), limit, window, now)
    ensures var z := RunLimiter(times + [now], limit, window);
            && Live(z, now) != [] && now < Live(z, now)[0] + window
            && (Allows(z, limit, window, later) <==> Live(z, now)[0] + window <= later)
  {
    assert (times + [now])[..|times|] == times;
    RunRepresents(times, limit, window, now);
    HistorySpaced(times, limit, window, now);
    RetryAfterRefusal(RunLimiter(times, limit, window), History(times, limit, window), limit, window, now, later);
  }

  // Truncating to milliseconds loses nothing, or less than one.
  lemma Truncation(wait: int)
    requires 0 < wait
    ensures var hint := wait / MILLISECOND;
            && 0 <= hint && (wait <= hint * MILLISECOND <==> wait % MILLISECOND == 0) && wait <= (hint + 1) * MILLISECOND
  {
  }

  lemma HintFromRetry(z: Option<ZSet>, limit: int, window: int, now: int)
    requires Live(z, now) != [] && now < Live(z, now)[0] + window
    requires forall later :: now <= later ==> (Allows(z, limit, window, later) <==> Live(z, now)[0] + window <= later)
    ensures var hint := RetryAfterMs(z, window, now);
            && 0 <= hint
            && (Allows(z, limit, window, now + hint * MILLISECOND) <==> (Live(z, now)[0] + window - now) % MILLISECOND == 0)
            && Allows(z, limit, window, now + (hint + 1) * MILLISECOND)
  {
    Truncation(Live(z, now)[0] + window - now);
  }

  lemma HintReadsNewState(times: seq<int>, limit: int, window: int, now: int)
    requires !Allows(RunLimiter(times, limit, window), limit, window, now)
    ensures Verdict(RunLimiter(times, limit, window), limit, window, now).retryAfterMs
         == RetryAfterMs(RunLimiter(times + [now], limit, window), window, now)
  {
    assert (times + [now])[..|times|] == times;
  }

  /** The hint is truncated to milliseconds. Waiting exactly that long succeeds
      if and only if nothing was truncated; one more millisecond always does. */
  lemma RetryHintIsExactIff(times: seq<int>, limit: int, window: int, now: int)
    requires Ascending(times, now) && 0 < limit
    requires !Allows(RunLimiter(times, limit, window), limit, window, now)
    ensures var z := RunLimiter(times + [now], limit, window);
            var hint := Verdict(RunLimiter(times, limit, window), limit, window, now).retryAfterMs;
            && Live(z, now) != [] && 0 <= hint
            && (Allows(z, limit, window, now + hint * MILLISECOND) <==>
                  (Live(z, now)[0] + window - now) % MILLISECOND == 0)
            && Allows(z, limit, window, now + (hint + 1) * MILLISECOND)
  {
    HintReadsNewState(times, limit, window, now);
    RetrySucceedsIff(times, limit, window, now, now);
    forall later | now <= later
      ensures Allows(RunLimiter(times + [now], limit, window), limit, window, later) <==>
              Live(RunLimiter(times + [now], limit, window), now)[0] + window <= later
    {
      RetrySucceedsIff(times, limit, window, now, later);
    }
    HintFromRetry(RunLimiter(times + [now], limit, window), limit, window, now);
  }

  /** It can come to that: with one request a second allowed and one made at 0, a
      caller refused a microsecond later waits the hinted 999 milliseconds and is
      refused again. */
  lemma HintFallsShort()
    ensures Verdict(RunLimiter([0], 1, SECOND), 1, SECOND, 1) == RateLimitResult(false, 0, 999)
    ensures !Allows(RunLimiter([0, 1], 1, SECOND), 1, SECOND, 1 + 999 * MILLISECOND)
  {
    var z := Some(ZSet([0], SECOND));
    assert [0][..0] == [] && [0, 1][..1] == [0];
    assert RunLimiter([], 1, SECOND) == None && Kept(None, SECOND, 0) == [];
    assert Insert([], 0) == [0];
    assert RunLimiter([0], 1, SECOND) == AfterCheck(None, 1, SECOND, 0) == z;
    assert Kept(z, SECOND, 1) == [0];
    assert RunLimiter([0, 1], 1, SECOND) == z;
    assert Kept(z, SECOND, 999_001) == [0];
  }
}
