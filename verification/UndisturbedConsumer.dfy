/** A consumer of the shared stream that nothing interferes with does what the
    retry loop of `EventBus` does. */
module UndisturbedConsumer {
  import opened Common
  import opened ConsumerGroups
  import EventBus

  // --- The consumer's own retry loop, without interference -----------------

  // What a consumer does next if nothing stops it and its handlers behave as `fails` says.
  function NextOwn(c: Config, s: System, w: nat, fails: EventBus.Failures): Action
    requires Busy(s, w)
  {
    match s.workers[w].stage
    case Next => Dedup(w)
    case Running(_, attempt, h) =>
      if h < HandlerCount(c, s, w) then Invoke(w, !fails(Max(attempt, 0), h)) else Complete(w)
    case GivenUp(_) => Bury(w)
    case Acking(_) => Action.Ack(w)
  }

  // The consumer works on from s to t, and nobody else acts.
  predicate WorksOn(c: Config, s: System, w: nat, fails: EventBus.Failures, acts: seq<Action>, t: System)
    decreases |acts|
  {
    if acts == [] then s == t
    else
      && Busy(s, w) && acts[0] == NextOwn(c, s, w, fails) && Enabled(c, s, acts[0])
      && WorksOn(c, After(c, s, acts[0]), w, fails, acts[1..], t)
  }

  lemma {:induction false} WorksOnLeads(c: Config, s: System, w: nat, fails: EventBus.Failures, acts: seq<Action>, t: System)
    requires WorksOn(c, s, w, fails, acts, t)
    ensures Leads(c, s, acts, t)
    decreases |acts|
  {
    if acts != [] {
      WorksOnLeads(c, After(c, s, acts[0]), w, fails, acts[1..], t);
    }
  }

  lemma {:induction false} WorksOnOn(c: Config, s: System, w: nat, fails: EventBus.Failures, a: seq<Action>, t: System,
                                     b: seq<Action>, u: System)
    requires WorksOn(c, s, w, fails, a, t)
    ensures WorksOn(c, t, w, fails, b, u) ==> WorksOn(c, s, w, fails, a + b, u)
    decreases |a|
  {
    if a == [] {
      assert a + b == b;
    } else {
      WorksOnOn(c, After(c, s, a[0]), w, fails, a[1..], t, b, u);
      assert (a + b)[1..] == a[1..] + b;
    }
  }

  lemma WorksByOne(c: Config, s: System, w: nat, fails: EventBus.Failures)
    requires Busy(s, w) && Enabled(c, s, NextOwn(c, s, w, fails))
    ensures WorksOn(c, s, w, fails, [NextOwn(c, s, w, fails)], After(c, s, NextOwn(c, s, w, fails)))
  {
  }

  // t is s with the consumer at another stage of the same entry.
  predicate OnlyCalls(s: System, t: System, w: nat, stage: Stage) {
    && w < |s.workers|
    && t.(runs := s.runs, good := s.good) == s.(workers := s.workers[w := s.workers[w].(stage := stage)])
  }

  lemma OnlyCallsOn(s: System, t: System, u: System, w: nat, a: Stage, b: Stage)
    requires OnlyCalls(s, t, w, a) && OnlyCalls(t, u, w, b)
    ensures OnlyCalls(s, u, w, b)
  {
    assert s.workers[w := s.workers[w].(stage := a)][w := s.workers[w].(stage := b)] == s.workers[w := s.workers[w].(stage := b)];
  }

  // Handlers from `from` up to `to` have been called once more, the others of this and any delivery as often as before.
  ghost predicate CalledOnce(runs: map<(nat, nat), nat>, more: map<(nat, nat), nat>, pass: nat, from: nat, to: nat) {
    forall p: nat, h: nat :: Runs(more, p, h) == Runs(runs, p, h) + if p == pass && from <= h < to then 1 else 0
  }

  lemma CalledOnceMore(a: map<(nat, nat), nat>, b: map<(nat, nat), nat>, d: map<(nat, nat), nat>, pass: nat, k: nat, l: nat, m: nat)
    requires CalledOnce(a, b, pass, k, l) && CalledOnce(b, d, pass, l, m) && k <= l <= m
    ensures CalledOnce(a, d, pass, k, m)
  {
    forall p: nat, h: nat
      ensures Runs(d, p, h) == Runs(a, p, h) + if p == pass && k <= h < m then 1 else 0
    {
      assert Runs(b, p, h) == Runs(a, p, h) + if p == pass && k <= h < l then 1 else 0;
    }
  }

  // The next handler is called.
  lemma OneCall(c: Config, s: System, w: nat, fails: EventBus.Failures) returns (t: System)
    requires Busy(s, w) && s.workers[w].stage.Running? && 1 <= s.workers[w].stage.attempt
    requires s.workers[w].stage.h < HandlerCount(c, s, w)
    ensures var st := s.workers[w].stage;
            && WorksOn(c, s, w, fails, [NextOwn(c, s, w, fails)], t)
            && OnlyCalls(s, t, w, if fails(st.attempt, st.h) then Retry(c, st) else st.(h := st.h + 1))
            && CalledOnce(s.runs, t.runs, st.pass, st.h, st.h + 1)
  {
    t := After(c, s, NextOwn(c, s, w, fails));
    WorksByOne(c, s, w, fails);
  }

  // Handlers that return take the attempt on to handler m.
  lemma {:induction false} CallsReturn(c: Config, s: System, w: nat, fails: EventBus.Failures, m: nat)
    returns (acts: seq<Action>, t: System)
    requires Busy(s, w) && s.workers[w].stage.Running? && 1 <= s.workers[w].stage.attempt
    requires s.workers[w].stage.h <= m <= HandlerCount(c, s, w)
    requires forall g :: s.workers[w].stage.h <= g < m ==> !fails(s.workers[w].stage.attempt, g)
    ensures WorksOn(c, s, w, fails, acts, t) && OnlyCalls(s, t, w, s.workers[w].stage.(h := m))
    ensures CalledOnce(s.runs, t.runs, s.workers[w].stage.pass, s.workers[w].stage.h, m)
    decreases m - s.workers[w].stage.h
  {
    var st := s.workers[w].stage;
    if st.h == m {
      acts, t := [], s;
    } else {
      var u := OneCall(c, s, w, fails);
      var rest;
      rest, t := CallsReturn(c, u, w, fails, m);
      WorksOnOn(c, s, w, fails, [NextOwn(c, s, w, fails)], u, rest, t);
      acts := [NextOwn(c, s, w, fails)] + rest;
      CalledOnceMore(s.runs, u.runs, t.runs, st.pass, st.h, st.h + 1, m);
      OnlyCallsOn(s, u, t, w, st.(h := st.h + 1), st.(h := m));
    }
  }

  // Handlers before m return, and handler m fails.
  lemma CallsUntilFailure(c: Config, s: System, w: nat, fails: EventBus.Failures, m: nat)
    returns (acts: seq<Action>, t: System)
    requires Busy(s, w) && s.workers[w].stage.Running? && 1 <= s.workers[w].stage.attempt && s.workers[w].stage.h == 0
    requires m < HandlerCount(c, s, w) && fails(s.workers[w].stage.attempt, m)
    requires forall g :: 0 <= g < m ==> !fails(s.workers[w].stage.attempt, g)
    ensures WorksOn(c, s, w, fails, acts, t) && OnlyCalls(s, t, w, Retry(c, s.workers[w].stage))
    ensures CalledOnce(s.runs, t.runs, s.workers[w].stage.pass, 0, m + 1)
  {
    var first, u := CallsReturn(c, s, w, fails, m);
    t := OneCall(c, u, w, fails);
    WorksOnOn(c, s, w, fails, first, u, [NextOwn(c, u, w, fails)], t);
    CalledOnceMore(s.runs, u.runs, t.runs, s.workers[w].stage.pass, 0, m, m + 1);
    OnlyCallsOn(s, u, t, w, s.workers[w].stage.(h := m), Retry(c, s.workers[w].stage));
    acts := first + [NextOwn(c, u, w, fails)];
  }

  // Where an attempt ends: the first of n handlers that fails, or n.
  lemma FirstFailure(fails: EventBus.Failures, attempt: nat, n: nat) returns (m: nat)
    ensures m <= n && (forall g :: 0 <= g < m ==> !fails(attempt, g)) && (m < n ==> fails(attempt, m))
    ensures m == n <==> EventBus.Clean(fails, attempt, n)
    ensures EventBus.Reach(fails, attempt, n) == if m == n then n else m + 1
  {
    m := 0;
    while m < n && !fails(attempt, m)
      invariant 0 <= m <= n && forall g :: 0 <= g < m ==> !fails(attempt, g)
    {
      m := m + 1;
    }
    EventBus.ReachIs(fails, attempt, n, m);
  }

  /** One attempt calls the handlers that `Deliver` would reach in it. */
  lemma OneAttempt(c: Config, s: System, w: nat, fails: EventBus.Failures) returns (acts: seq<Action>, t: System)
    requires Busy(s, w) && s.workers[w].stage.Running? && 1 <= s.workers[w].stage.attempt && s.workers[w].stage.h == 0
    ensures var st, n := s.workers[w].stage, HandlerCount(c, s, w);
            && WorksOn(c, s, w, fails, acts, t)
            && CalledOnce(s.runs, t.runs, st.pass, 0, EventBus.Reach(fails, st.attempt, n))
            && OnlyCalls(s, t, w, if EventBus.Clean(fails, st.attempt, n) then st.(h := n) else Retry(c, st))
  {
    var m := FirstFailure(fails, s.workers[w].stage.attempt, HandlerCount(c, s, w));
    if m == HandlerCount(c, s, w) {
      acts, t := CallsReturn(c, s, w, fails, m);
    } else {
      acts, t := CallsUntilFailure(c, s, w, fails, m);
    }
  }

  // As often as the first k attempts of the account say.
  ghost predicate CallsAre(runs: map<(nat, nat), nat>, pass: nat, reached: seq<nat>) {
    forall h: nat :: Runs(runs, pass, h) == EventBus.Calls(reached, h)
  }

  lemma CallsGrow(runs: map<(nat, nat), nat>, more: map<(nat, nat), nat>, pass: nat, reached: seq<nat>, k: nat)
    requires k < |reached| && CallsAre(runs, pass, reached[..k]) && CalledOnce(runs, more, pass, 0, reached[k])
    ensures CallsAre(more, pass, reached[..k + 1])
  {
    assert reached[..k + 1][..k] == reached[..k];
  }

  // Where an account leaves the consumer: about to acknowledge, done retrying, or about to raise.
  function EndStage(d: EventBus.Delivery, pass: nat, n: nat): Stage {
    match d.verdict
    case Succeeded => Running(pass, |d.reached|, n)
    case Exhausted => GivenUp(pass)
    case Broken => Running(pass, 2, 0)
  }

  /** The attempts from the a-th on are those of the account. */
  lemma {:induction false} AllAttempts(c: Config, s: System, w: nat, fails: EventBus.Failures, d: EventBus.Delivery,
                                       backoff: seq<int>, a: nat)
    returns (acts: seq<Action>, t: System)
    requires Busy(s, w) && 1 <= a <= |d.reached| && s.workers[w].stage.Running?
    requires s.workers[w].stage == Running(s.workers[w].stage.pass, a, 0)
    requires EventBus.Accounts(d, HandlerCount(c, s, w), c.maxRetries, backoff, fails)
    requires CallsAre(s.runs, s.workers[w].stage.pass, d.reached[..a - 1])
    ensures WorksOn(c, s, w, fails, acts, t)
    ensures OnlyCalls(s, t, w, EndStage(d, s.workers[w].stage.pass, HandlerCount(c, s, w)))
    ensures CallsAre(t.runs, s.workers[w].stage.pass, d.reached)
    decreases |d.reached| - a
  {
    var st := s.workers[w].stage;
    acts, t := OneAttempt(c, s, w, fails);
    CallsGrow(s.runs, t.runs, st.pass, d.reached, a - 1);
    if a == |d.reached| {
      assert d.reached[..a] == d.reached;
    } else {
      var rest, u := AllAttempts(c, t, w, fails, d, backoff, a + 1);
      WorksOnOn(c, s, w, fails, acts, t, rest, u);
      acts, t := acts + rest, u;
    }
  }

  // A live consumer about to take on an entry with this id that is not seen.
  predicate TakesOn(s: System, w: nat) {
    Busy(s, w) && s.workers[w].stage.Next? && !KeyLives(s, s.stream[s.workers[w].batch[0]])
  }

  // What the dedup mark makes of such a state.
  function MarkedBy(c: Config, s: System, w: nat): System
    requires TakesOn(s, w)
  {
    After(c, s, Dedup(w))
  }

  /** From the mark to the end of the retry loop the consumer makes exactly the
      calls of the account. */
  lemma LoopRefines(c: Config, s: System, w: nat, fails: EventBus.Failures, d: EventBus.Delivery, backoff: seq<int>)
    returns (acts: seq<Action>, t: System)
    requires TakesOn(s, w) && EventBus.Accounts(d, HandlerCount(c, s, w), c.maxRetries, backoff, fails)
    requires forall h: nat :: Runs(s.runs, |s.passes|, h) == 0
    ensures WorksOn(c, s, w, fails, acts, t)
    ensures OnlyCalls(MarkedBy(c, s, w), t, w, EndStage(d, |s.passes|, HandlerCount(c, s, w)))
    ensures CallsAre(t.runs, |s.passes|, d.reached)
  {
    var u := MarkedBy(c, s, w);
    WorksByOne(c, s, w, fails);
    acts, t := [Dedup(w)], u;
    if 1 <= c.maxRetries {
      assert d.reached[..0] == [];
      var rest;
      rest, t := AllAttempts(c, u, w, fails, d, backoff, 1);
      WorksOnOn(c, s, w, fails, [Dedup(w)], u, rest, t);
      acts := [Dedup(w)] + rest;
    } else {
      assert d.reached == [];
    }
  }

  // The end of the entry: what is acknowledged, and the dead letter if there is one.
  lemma EndsAcked(c: Config, s: System, w: nat, fails: EventBus.Failures) returns (acts: seq<Action>, t: System)
    requires Busy(s, w)
    requires s.workers[w].stage.GivenUp? || (s.workers[w].stage.Running? && s.workers[w].stage.h == HandlerCount(c, s, w))
    ensures WorksOn(c, s, w, fails, acts, t)
    ensures var x := s.workers[w];
            var reason := if x.stage.Running? then Handled(x.stage.pass) else DeadLettered(x.stage.pass);
            && t.acked == s.acked + [(x.group, x.batch[0], reason)]
            && t.dlq == s.dlq + (if x.stage.Running? then [] else [(x.group, x.batch[0])])
            && t.pending == s.pending - {(x.group, x.batch[0])}
            && t.workers == s.workers[w := x.(batch := x.batch[1..], stage := Next)]
            && t.runs == s.runs && t.seen == s.seen && t.passes == s.passes && t.now == s.now
  {
    var first := NextOwn(c, s, w, fails);
    var u := After(c, s, first);
    WorksByOne(c, s, w, fails);
    t := After(c, u, Action.Ack(w));
    WorksByOne(c, u, w, fails);
    WorksOnOn(c, s, w, fails, [first], u, [Action.Ack(w)], t);
    acts := [first] + [Action.Ack(w)];
  }

  /** What the account d of the entry at the head of the batch of w makes of s. */
  ghost predicate DoneAs(c: Config, s: System, w: nat, d: EventBus.Delivery, t: System)
    requires Busy(s, w)
  {
    var pass, g, entry := |s.passes|, s.workers[w].group, s.workers[w].batch[0];
    && CallsAre(t.runs, pass, d.reached)
    && t.passes == s.passes + [Pass(s.stream[entry], s.now, g, entry, w)]
    && t.seen == s.seen[s.stream[entry] := s.now + c.dedupTtl]
    && t.acked == s.acked + (match d.verdict
                             case Succeeded => [(g, entry, Handled(pass))]
                             case Exhausted => [(g, entry, DeadLettered(pass))]
                             case Broken => [])
    && t.dlq == s.dlq + (if d.verdict.Exhausted? then [(g, entry)] else [])
    && t.pending == s.pending - (if d.verdict.Broken? then {} else {(g, entry)})
  }

  // The state in which the retry loop leaves the consumer.
  lemma LoopState(c: Config, s: System, w: nat, stage: Stage, t: System)
    requires TakesOn(s, w) && OnlyCalls(MarkedBy(c, s, w), t, w, stage)
    ensures var x := s.workers[w];
            && t.passes == s.passes + [Pass(s.stream[x.batch[0]], s.now, x.group, x.batch[0], w)]
            && t.seen == s.seen[s.stream[x.batch[0]] := s.now + c.dedupTtl]
            && t.acked == s.acked && t.dlq == s.dlq && t.pending == s.pending && t.stream == s.stream
            && t.workers == s.workers[w := x.(stage := stage)]
  {
    assert MarkedBy(c, s, w).workers[w := s.workers[w].(stage := stage)] == s.workers[w := s.workers[w].(stage := stage)];
  }

  lemma LoopThenEnd(c: Config, s: System, w: nat, fails: EventBus.Failures, d: EventBus.Delivery, u: System)
    returns (acts: seq<Action>, t: System)
    requires TakesOn(s, w)
    requires OnlyCalls(MarkedBy(c, s, w), u, w, EndStage(d, |s.passes|, HandlerCount(c, s, w)))
    requires CallsAre(u.runs, |s.passes|, d.reached)
    ensures WorksOn(c, u, w, fails, acts, t) && DoneAs(c, s, w, d, t)
  {
    LoopState(c, s, w, EndStage(d, |s.passes|, HandlerCount(c, s, w)), u);
    if d.verdict.Broken? {
      acts, t := [], u;
    } else {
      acts, t := EndsAcked(c, u, w, fails);
    }
  }

  /** A consumer that nothing interferes with refines the retry loop. Whatever its
      handlers do, it marks an unseen event, calls each handler as often as
      `Deliver` does, and then acknowledges the entry as handled where `Deliver`
      succeeds, as dead-lettered where it is exhausted, and not at all where it
      breaks, where the next thing is the exception that ends the consumer. */
  lemma RefinesDeliver(c: Config, states: seq<System>, steps: seq<Action>, m: nat, w: nat, fails: EventBus.Failures,
                       d: EventBus.Delivery, backoff: seq<int>) returns (acts: seq<Action>, t: System)
    requires 0 <= c.dedupTtl && Run(c, states, steps) && m < |states| && TakesOn(states[m], w)
    requires EventBus.Accounts(d, HandlerCount(c, states[m], w), c.maxRetries, backoff, fails)
    ensures WorksOn(c, states[m], w, fails, acts, t) && Leads(c, states[m], acts, t)
    ensures DoneAs(c, states[m], w, d, t)
  {
    RunInv(c, states, steps, m);
    var s := states[m];
    var loop, u := LoopRefines(c, s, w, fails, d, backoff);
    var rest;
    rest, t := LoopThenEnd(c, s, w, fails, d, u);
    WorksOnOn(c, s, w, fails, loop, u, rest, t);
    acts := loop + rest;
    WorksOnLeads(c, s, w, fails, acts, t);
  }
}
