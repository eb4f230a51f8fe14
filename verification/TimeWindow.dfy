/** Ascending lists of time stamps and the part of one that falls inside a
    sliding window. Shared by the circuit breaker and the rate limiter. */
module TimeWindow {
  // The stamps at or after `from`, in order.
  function Since(ts: seq<int>, from: int): seq<int> {
    if ts == [] then []
    else
      var rest := Since(ts[..|ts| - 1], from);
      if from <= ts[|ts| - 1] then rest + [ts[|ts| - 1]] else rest
  }

  // Non-decreasing, and nothing later than `bound`.
  predicate Ascending(ts: seq<int>, bound: int) {
    ts == [] || (ts[|ts| - 1] <= bound && Ascending(ts[..|ts| - 1], ts[|ts| - 1]))
  }

  lemma {:induction false} InOrder(ts: seq<int>, bound: int, i: nat, j: nat)
    requires Ascending(ts, bound) && i <= j < |ts|
    ensures ts[i] <= ts[j] <= bound
  {
    var n := |ts| - 1;
    if i < n {
      InOrder(ts[..n], ts[n], i, if j < n then j else n - 1);
    }
  }

  lemma Append(ts: seq<int>, bound: int, t: int)
    requires Ascending(ts, bound) && bound <= t
    ensures Ascending(ts + [t], t)
  {
    assert (ts + [t])[..|ts|] == ts;
  }

  // Entries from index k on are exactly the ones at or after `from`.
  predicate CutsAt(ts: seq<int>, k: int, from: int) {
    0 <= k <= |ts| && forall i :: 0 <= i < |ts| ==> (from <= ts[i] <==> k <= i)
  }

  // `kept` is the end of `all`, and everything missing is before `from`.
  predicate TailOf(all: seq<int>, kept: seq<int>, from: int) {
    && |kept| <= |all|
    && (forall i :: 0 <= i < |kept| ==> kept[i] == all[|all| - |kept| + i])
    && forall i :: 0 <= i < |all| - |kept| ==> all[i] < from
  }

  lemma TailGrows(all: seq<int>, kept: seq<int>, from: int, t: int)
    requires TailOf(all, kept, from)
    ensures TailOf(all + [t], kept + [t], from)
  {
  }

  lemma TailFrom(all: seq<int>, k: nat, from: int)
    requires CutsAt(all, k, from)
    ensures TailOf(all, all[k..], from)
  {
  }

  lemma CutOff(ts: seq<int>, bound: int, from: int) returns (k: nat)
    requires Ascending(ts, bound)
    ensures CutsAt(ts, k, from)
  {
    k := |ts|;
    while 0 < k && from <= ts[k - 1]
      invariant 0 <= k <= |ts|
      invariant forall i :: k <= i < |ts| ==> from <= ts[i]
    {
      k := k - 1;
    }
    forall i | 0 <= i < k
      ensures ts[i] < from
    {
      InOrder(ts, bound, i, k - 1);
    }
  }

  lemma {:induction false} SinceDropsPrefix(ts: seq<int>, from: int, k: nat)
    requires CutsAt(ts, k, from)
    ensures Since(ts, from) == ts[k..]
  {
    if ts != [] {
      var n := |ts| - 1;
      SinceDropsPrefix(ts[..n], from, if k <= n then k else n);
      if k <= n {
        assert ts[k..] == ts[..n][k..] + [ts[n]];
      }
    }
  }

  lemma CutTail(all: seq<int>, tail: seq<int>, from: int, k: nat)
    requires CutsAt(all, k, from) && TailOf(all, tail, from)
    ensures var d := |all| - |tail|; d <= k && CutsAt(tail, k - d, from) && tail[k - d..] == all[k..]
  {
    var d := |all| - |tail|;
    assert 0 < d ==> all[d - 1] < from;
    assert tail[k - d..] == all[k..];
  }

  /** Narrowing the window of a list that has already lost stale entries gives
      the same as narrowing the full list: forgetting them changes nothing. */
  lemma ForgettingIsHarmless(all: seq<int>, bound: int, tail: seq<int>, from: int) returns (k: nat)
    requires Ascending(all, bound) && TailOf(all, tail, from)
    ensures CutsAt(all, k, from)
    ensures Since(tail, from) == all[k..] && Since(all, from) == all[k..]
  {
    k := CutOff(all, bound, from);
    CutTail(all, tail, from, k);
    SinceDropsPrefix(all, from, k);
    SinceDropsPrefix(tail, from, k - (|all| - |tail|));
  }
}
