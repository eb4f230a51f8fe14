/** When an entry on the shared stream is dead-lettered: what must have failed
    before, and when it had been handled all the same. */
module DeadLetters {
  import opened Common
  import opened ConsumerGroups

  // --- When a handled event is dead-lettered ----------------------------

  // The delivery whose acknowledgement raises in this step, if any.
  function RaisedBy(s: System, a: Action): set<nat> {
    if a.AckRaises? && a.w < |s.workers| && s.workers[a.w].stage.Running? then {s.workers[a.w].stage.pass} else {}
  }

  // The deliveries whose acknowledgement raised in the first n steps.
  function RaisedAcks(states: seq<System>, acts: seq<Action>, n: nat): set<nat>
    requires n <= |acts| < |states|
  {
    if n == 0 then {} else RaisedAcks(states, acts, n - 1) + RaisedBy(states[n - 1], acts[n - 1])
  }

  // No attempt of the delivery got all of its n > 0 handlers to return.
  ghost predicate NeverHandled(good: set<Call>, pass: nat, n: nat) {
    0 < n ==> forall attempt :: !AllReturned(good, pass, attempt, n)
  }

  // Every attempt before this one failed, and this one has got as far as handler h.
  ghost predicate FailedSoFar(good: set<Call>, pass: nat, attempt: int, n: nat) {
    0 < n ==> forall a :: a < attempt ==> !AllReturned(good, pass, a, n)
  }

  ghost predicate NoneAhead(good: set<Call>, pass: nat, attempt: int, h: nat) {
    forall a: int, g: nat :: Call(pass, a, g) in good ==> a < attempt || (a == attempt && g < h)
  }

  // What the calls so far say of a delivery that is under way at a consumer, or given up.
  ghost predicate TriedOk(c: Config, good: set<Call>, x: Worker, raised: set<nat>) {
    x.batch != [] && !x.crashed ==>
      var n := c.handlers(x.group, x.batch[0]);
      match x.stage
      case Running(pass, attempt, h) =>
        NoneAhead(good, pass, attempt, h) && (pass !in raised ==> FailedSoFar(good, pass, attempt, n))
      case GivenUp(pass) => pass !in raised ==> NeverHandled(good, pass, n)
      case Acking(reason) =>
        reason.DeadLettered? && reason.pass !in raised ==> NeverHandled(good, reason.pass, n)
      case Next => true
  }

  ghost predicate BuriedOk(c: Config, s: System, k: nat, raised: set<nat>)
    requires k < |s.acked|
  {
    s.acked[k].2.DeadLettered? ==>
      var pass := s.acked[k].2.pass;
      Settled(s, pass) && (pass !in raised ==> NeverHandled(s.good, pass, c.handlers(s.acked[k].0, s.acked[k].1)))
  }

  ghost predicate TriedInv(c: Config, s: System, raised: set<nat>) {
    && (forall x: Call :: x in s.good ==> x.pass < |s.passes|)
    && (forall w :: 0 <= w < |s.workers| ==> TriedOk(c, s.good, s.workers[w], raised))
    && (forall k :: 0 <= k < |s.acked| ==> BuriedOk(c, s, k, raised))
    && (forall pass :: pass in raised ==> pass < |s.passes| && FullyHandled(s, pass, Duty(c, s, pass)))
  }

  // A failed call, the first of its attempt.
  lemma AttemptFails(good: set<Call>, pass: nat, attempt: int, h: nat, n: nat)
    requires h < n && NoneAhead(good, pass, attempt, h) && FailedSoFar(good, pass, attempt, n)
    ensures NoneAhead(good, pass, attempt + 1, 0) && FailedSoFar(good, pass, attempt + 1, n)
    ensures NeverHandled(good, pass, n)
  {
    forall a | attempt <= a
      ensures !AllReturned(good, pass, a, n)
    {
      assert Call(pass, a, h) !in good;
    }
  }

  lemma CallReturns(good: set<Call>, pass: nat, attempt: int, h: nat, n: nat)
    requires NoneAhead(good, pass, attempt, h)
    ensures NoneAhead(good + {Call(pass, attempt, h)}, pass, attempt, h + 1)
    ensures FailedSoFar(good, pass, attempt, n) ==> FailedSoFar(good + {Call(pass, attempt, h)}, pass, attempt, n)
  {
    if 0 < n && FailedSoFar(good, pass, attempt, n) {
      forall a | a < attempt
        ensures !AllReturned(good + {Call(pass, attempt, h)}, pass, a, n)
      {
        assert !AllReturned(good, pass, a, n);
        var g :| 0 <= g < n && Call(pass, a, g) !in good;
        assert Call(pass, a, g) !in good + {Call(pass, attempt, h)};
      }
    }
  }

  lemma TriedInvoke(c: Config, s: System, w: nat, ok: bool, raised: set<nat>)
    requires TriedInv(c, s, raised) && Enabled(c, s, Invoke(w, ok))
    ensures var t := After(c, s, Invoke(w, ok)); TriedOk(c, t.good, t.workers[w], raised)
  {
    var st, n := s.workers[w].stage, HandlerCount(c, s, w);
    assert TriedOk(c, s.good, s.workers[w], raised);
    if ok {
      CallReturns(s.good, st.pass, st.attempt, st.h, n);
    } else if st.pass !in raised {
      AttemptFails(s.good, st.pass, st.attempt, st.h, n);
    }
  }

  // The consumer that acts.
  lemma TriedOwn(c: Config, s: System, a: Action, raised: set<nat>)
    requires TriedInv(c, s, raised) && Enabled(c, s, a) && Own(a)
    ensures var t := After(c, s, a); TriedOk(c, t.good, t.workers[a.w], raised + RaisedBy(s, a))
  {
    assert TriedOk(c, s.good, s.workers[a.w], raised);
    if a.Invoke? {
      TriedInvoke(c, s, a.w, a.ok, raised);
    } else if a.Dedup? {
      var n := c.handlers(s.workers[a.w].group, s.workers[a.w].batch[0]);
      forall attempt | 0 < n
        ensures !AllReturned(s.good, |s.passes|, attempt, n)
      {
        assert Call(|s.passes|, attempt, 0) !in s.good;
      }
    }
  }

  ghost predicate SameGood(good: set<Call>, grown: set<Call>, pass: nat) {
    forall attempt: int, h: nat :: Call(pass, attempt, h) in grown <==> Call(pass, attempt, h) in good
  }

  lemma NeverStays(good: set<Call>, grown: set<Call>, pass: nat, attempt: int, n: nat)
    requires SameGood(good, grown, pass)
    ensures NeverHandled(good, pass, n) ==> NeverHandled(grown, pass, n)
    ensures FailedSoFar(good, pass, attempt, n) ==> FailedSoFar(grown, pass, attempt, n)
  {
    forall a
      ensures AllReturned(grown, pass, a, n) <==> AllReturned(good, pass, a, n)
    {
    }
  }

  // The pass a consumer is concerned with, if any.
  predicate Concerns(x: Worker, pass: nat) {
    match x.stage
    case Next => false
    case Running(p, _, _) => p == pass
    case GivenUp(p) => p == pass
    case Acking(reason) => !reason.AlreadySeen? && reason.pass == pass
  }

  lemma TriedKept(c: Config, good: set<Call>, grown: set<Call>, x: Worker, raised: set<nat>, more: set<nat>)
    requires TriedOk(c, good, x, raised) && raised <= more
    requires forall pass: nat :: Concerns(x, pass) ==> SameGood(good, grown, pass)
    ensures TriedOk(c, grown, x, more)
  {
    if x.batch != [] && !x.crashed {
      var n := c.handlers(x.group, x.batch[0]);
      match x.stage
      case Running(pass, attempt, _) =>
        assert Concerns(x, pass);
        NeverStays(good, grown, pass, attempt, n);
      case GivenUp(pass) =>
        assert Concerns(x, pass);
        NeverStays(good, grown, pass, 0, n);
      case Acking(reason) =>
        if reason.DeadLettered? {
          assert Concerns(x, reason.pass);
          NeverStays(good, grown, reason.pass, 0, n);
        }
      case Next =>
    }
  }

  // Two consumers are never concerned with one delivery.
  lemma OthersUnconcerned(c: Config, s: System, w: nat, v: nat)
    requires Reachable(c, s) && w < |s.workers| && Busy(s, v) && v != w && s.workers[v].stage.Running?
    requires s.workers[w].batch != [] && !s.workers[w].crashed
    ensures !Concerns(s.workers[w], s.workers[v].stage.pass)
  {
    assert WorkerOk(c, s, w) && WorkerOk(c, s, v);
  }

  // A consumer that does not act.
  lemma TriedOther(c: Config, s: System, a: Action, w: nat, raised: set<nat>)
    requires Reachable(c, s) && TriedInv(c, s, raised) && Enabled(c, s, a) && w < |s.workers| && (Own(a) ==> a.w != w)
    ensures TriedOk(c, After(c, s, a).good, s.workers[w], raised + RaisedBy(s, a))
  {
    var x := s.workers[w];
    if x.batch != [] && !x.crashed {
      if a.Invoke? {
        OthersUnconcerned(c, s, w, a.w);
      }
      TriedKept(c, s.good, After(c, s, a).good, x, raised, raised + RaisedBy(s, a));
    }
  }

  lemma TriedWorkers(c: Config, s: System, a: Action, raised: set<nat>)
    requires Reachable(c, s) && TriedInv(c, s, raised) && Enabled(c, s, a)
    ensures var t := After(c, s, a);
            forall w :: 0 <= w < |t.workers| ==> TriedOk(c, t.good, t.workers[w], raised + RaisedBy(s, a))
  {
    var t := After(c, s, a);
    forall w | 0 <= w < |t.workers|
      ensures TriedOk(c, t.good, t.workers[w], raised + RaisedBy(s, a))
    {
      if w < |s.workers| {
        if Own(a) && a.w == w { TriedOwn(c, s, a, raised); } else { TriedOther(c, s, a, w, raised); }
      }
    }
  }

  lemma BuriedKept(c: Config, s: System, a: Action, k: nat, raised: set<nat>)
    requires Reachable(c, s) && TriedInv(c, s, raised) && Enabled(c, s, a) && k < |s.acked|
    ensures var t := After(c, s, a);
            k < |t.acked| && t.acked[k] == s.acked[k] && BuriedOk(c, t, k, raised + RaisedBy(s, a))
  {
    assert BuriedOk(c, s, k, raised);
    if s.acked[k].2.DeadLettered? {
      var pass := s.acked[k].2.pass;
      SettledStep(c, s, a, pass);
      NeverStays(s.good, After(c, s, a).good, pass, 0, c.handlers(s.acked[k].0, s.acked[k].1));
    }
  }

  lemma BuriedAck(c: Config, s: System, w: nat, raised: set<nat>)
    requires Reachable(c, s) && TriedInv(c, s, raised) && Enabled(c, s, Action.Ack(w))
    ensures BuriedOk(c, After(c, s, Action.Ack(w)), |s.acked|, raised)
  {
    assert WorkerOk(c, s, w) && TriedOk(c, s.good, s.workers[w], raised);
    var reason := s.workers[w].stage.reason;
    if reason.DeadLettered? {
      assert Settled(s, reason.pass);
      SettledStep(c, s, Action.Ack(w), reason.pass);
    }
  }

  lemma HandledStays(c: Config, s: System, a: Action, pass: nat)
    requires Enabled(c, s, a) && pass < |s.passes| && FullyHandled(s, pass, Duty(c, s, pass))
    ensures var t := After(c, s, a); pass < |t.passes| && FullyHandled(t, pass, Duty(c, t, pass))
  {
    PassesStay(c, s, a);
    var attempt :| AllReturned(s.good, pass, attempt, Duty(c, s, pass));
    assert AllReturned(After(c, s, a).good, pass, attempt, Duty(c, s, pass));
  }

  lemma RaisedIsHandled(c: Config, s: System, a: Action, pass: nat)
    requires Reachable(c, s) && Enabled(c, s, a) && pass in RaisedBy(s, a)
    ensures pass < |s.passes| && FullyHandled(s, pass, Duty(c, s, pass))
  {
    assert WorkerOk(c, s, a.w);
    assert AllReturned(s.good, pass, s.workers[a.w].stage.attempt, Duty(c, s, pass));
  }

  lemma TriedStep(c: Config, s: System, a: Action, raised: set<nat>)
    requires Reachable(c, s) && TriedInv(c, s, raised) && Enabled(c, s, a)
    ensures TriedInv(c, After(c, s, a), raised + RaisedBy(s, a))
  {
    var t, more := After(c, s, a), raised + RaisedBy(s, a);
    TriedWorkers(c, s, a, raised);
    forall k | 0 <= k < |t.acked|
      ensures BuriedOk(c, t, k, more)
    {
      if k < |s.acked| { BuriedKept(c, s, a, k, raised); } else { BuriedAck(c, s, a.w, raised); }
    }
    forall pass | pass in more
      ensures pass < |t.passes| && FullyHandled(t, pass, Duty(c, t, pass))
    {
      if pass !in raised { RaisedIsHandled(c, s, a, pass); }
      HandledStays(c, s, a, pass);
    }
    forall x: Call | x in t.good
      ensures x.pass < |t.passes|
    {
      PassesStay(c, s, a);
      if x !in s.good { assert WorkerOk(c, s, a.w); }
    }
  }

  lemma {:induction false} RunTried(c: Config, states: seq<System>, acts: seq<Action>, n: nat)
    requires 0 <= c.dedupTtl && Run(c, states, acts) && n < |states|
    ensures TriedInv(c, states[n], RaisedAcks(states, acts, n))
  {
    if n > 0 {
      RunTried(c, states, acts, n - 1);
      RunInv(c, states, acts, n - 1);
      var s, a := states[n - 1], acts[n - 1];
      assert Step(c, s, a, states[n]);
      TriedStep(c, s, a, RaisedAcks(states, acts, n - 1));
    }
  }

  /** An event with handlers that was dead-lettered had in some attempt been
      handled in full exactly if an acknowledgement of that delivery had raised. */
  lemma DeadLetteredThoughHandledIff(c: Config, states: seq<System>, acts: seq<Action>, n: nat, k: nat)
    requires 0 <= c.dedupTtl && Run(c, states, acts) && n < |states| && k < |states[n].acked|
    requires states[n].acked[k].2.DeadLettered? && 0 < c.handlers(states[n].acked[k].0, states[n].acked[k].1)
    ensures var (g, entry, reason) := states[n].acked[k];
            FullyHandled(states[n], reason.pass, c.handlers(g, entry)) <==> reason.pass in RaisedAcks(states, acts, n)
  {
    RunInv(c, states, acts, n);
    RunTried(c, states, acts, n);
    var s := states[n];
    assert BuriedOk(c, s, k, RaisedAcks(states, acts, n));
    assert Justified(c, s, s.acked[k].0, s.acked[k].1, s.acked[k].2);
  }

  // --- A dead letter has used up its attempts ---------------------------

  // The step fails attempt `attempt` of a delivery: a handler raises, or the acknowledgement after the last one does.
  predicate FailsAttempt(s: System, a: Action, pass: nat, attempt: int) {
    && (a.AckRaises? || (a.Invoke? && !a.ok)) && a.w < |s.workers|
    && s.workers[a.w].stage.Running? && s.workers[a.w].stage.pass == pass && s.workers[a.w].stage.attempt == attempt
  }

  ghost predicate HasFailed(states: seq<System>, acts: seq<Action>, n: nat, pass: nat, attempt: int) {
    exists k: nat :: k < n && k < |acts| && k < |states| && FailsAttempt(states[k], acts[k], pass, attempt)
  }

  ghost predicate AllFailed(states: seq<System>, acts: seq<Action>, n: nat, pass: nat, attempts: int) {
    forall attempt :: 1 <= attempt <= attempts ==> HasFailed(states, acts, n, pass, attempt)
  }

  // What a stage says of the attempts before it.
  ghost predicate Spent(c: Config, states: seq<System>, acts: seq<Action>, n: nat, stage: Stage) {
    match stage
    case Next => true
    case Running(pass, attempt, _) => AllFailed(states, acts, n, pass, attempt - 1)
    case GivenUp(pass) => AllFailed(states, acts, n, pass, c.maxRetries)
    case Acking(reason) => reason.DeadLettered? ==> AllFailed(states, acts, n, reason.pass, c.maxRetries)
  }

  lemma FailedStays(states: seq<System>, acts: seq<Action>, m: nat, n: nat, pass: nat, attempts: int)
    requires m <= n && AllFailed(states, acts, m, pass, attempts)
    ensures AllFailed(states, acts, n, pass, attempts)
  {
    forall attempt | 1 <= attempt <= attempts
      ensures HasFailed(states, acts, n, pass, attempt)
    {
      assert HasFailed(states, acts, m, pass, attempt);
    }
  }

  lemma SpentStays(c: Config, states: seq<System>, acts: seq<Action>, n: nat, stage: Stage)
    requires Spent(c, states, acts, n, stage)
    ensures Spent(c, states, acts, n + 1, stage)
  {
    match stage
    case Next =>
    case Running(pass, attempt, _) => FailedStays(states, acts, n, n + 1, pass, attempt - 1);
    case GivenUp(pass) => FailedStays(states, acts, n, n + 1, pass, c.maxRetries);
    case Acking(reason) =>
      if reason.DeadLettered? {
        FailedStays(states, acts, n, n + 1, reason.pass, c.maxRetries);
      }
  }

  // A failed attempt is one more.
  lemma OneMoreFailed(c: Config, states: seq<System>, acts: seq<Action>, n: nat, st: Stage)
    requires n < |acts| && n < |states| && st.Running? && Spent(c, states, acts, n, st)
    requires FailsAttempt(states[n], acts[n], st.pass, st.attempt)
    ensures Spent(c, states, acts, n + 1, Retry(c, st))
  {
    var later := n + 1;
    forall attempt | 1 <= attempt <= st.attempt
      ensures HasFailed(states, acts, later, st.pass, attempt)
    {
      assert attempt < st.attempt ==> HasFailed(states, acts, n, st.pass, attempt);
      assert attempt == st.attempt ==> FailsAttempt(states[n], acts[n], st.pass, attempt);
    }
  }

  lemma SpentStep(c: Config, states: seq<System>, acts: seq<Action>, n: nat, w: nat)
    requires n < |acts| && n < |states| && Enabled(c, states[n], acts[n])
    requires w < |After(c, states[n], acts[n]).workers|
    requires w < |states[n].workers| ==> Spent(c, states, acts, n, states[n].workers[w].stage)
    ensures Spent(c, states, acts, n + 1, After(c, states[n], acts[n]).workers[w].stage)
  {
    var s, a := states[n], acts[n];
    var stage := After(c, s, a).workers[w].stage;
    if w < |s.workers| {
      SpentStays(c, states, acts, n, s.workers[w].stage);
      if (a.AckRaises? || (a.Invoke? && !a.ok)) && a.w == w {
        OneMoreFailed(c, states, acts, n, s.workers[w].stage);
      }
    }
  }

  lemma {:induction false} RunSpent(c: Config, states: seq<System>, acts: seq<Action>, n: nat, w: nat)
    requires Run(c, states, acts) && n < |states| && w < |states[n].workers|
    ensures Spent(c, states, acts, n, states[n].workers[w].stage)
  {
    if n > 0 {
      assert Step(c, states[n - 1], acts[n - 1], states[n]);
      if w < |states[n - 1].workers| {
        RunSpent(c, states, acts, n - 1, w);
      }
      SpentStep(c, states, acts, n - 1, w);
    }
  }

  /** In every run a dead-lettered entry's delivery has failed each of its
      max_retries attempts, by a handler or by the acknowledgement that raised:
      none is given up early. */
  lemma {:induction false} DeadLetterSpentAttempts(c: Config, states: seq<System>, acts: seq<Action>, n: nat, k: nat)
    requires Run(c, states, acts) && n < |states| && k < |states[n].acked| && states[n].acked[k].2.DeadLettered?
    ensures AllFailed(states, acts, n, states[n].acked[k].2.pass, c.maxRetries)
  {
    if n > 0 {
      var s, a := states[n - 1], acts[n - 1];
      assert Step(c, s, a, states[n]);
      if k < |s.acked| {
        DeadLetterSpentAttempts(c, states, acts, n - 1, k);
      } else {
        RunSpent(c, states, acts, n - 1, a.w);
      }
      FailedStays(states, acts, n - 1, n, states[n].acked[k].2.pass, c.maxRetries);
    }
  }
}
