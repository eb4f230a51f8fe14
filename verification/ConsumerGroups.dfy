/** Any number of consumers, in any number of groups, on one stream, with
    crashes between any two steps (`event_bus/consumer.py`, `dedup.py`,
    `dlq.py`). The dedup keys are shared by all groups of the stream. */
module ConsumerGroups {
  import opened Common

  datatype Config = Config(maxRetries: int, dedupTtl: int, handlers: (string, nat) -> nat)

  // Why an entry is about to be, or was, acknowledged. `pass` numbers deliveries.
  datatype Reason = Handled(pass: nat) | DeadLettered(pass: nat) | AlreadySeen

  /** Where a consumer stands with the entry at the head of its batch. */
  datatype Stage =
    | Next                                        // before the dedup check
    | Running(pass: nat, attempt: int, h: nat)    // about to call handler h
    | GivenUp(pass: nat)                          // retries exhausted
    | Acking(reason: Reason)

  datatype Worker = Worker(group: string, batch: seq<nat>, stage: Stage, crashed: bool)

  /** A delivery that passed the dedup check. */
  datatype Pass = Pass(eventId: string, at: int, group: string, entry: nat, owner: nat)

  datatype Call = Call(pass: nat, attempt: int, h: nat)

  datatype System = System(
    now: int, stream: seq<string>, cursors: map<string, nat>, pending: set<(string, nat)>,
    seen: map<string, int>, dlq: seq<(string, nat)>, acked: seq<(string, nat, Reason)>,
    workers: seq<Worker>, passes: seq<Pass>,
    runs: map<(nat, nat), nat>,     // how often each delivery called each handler
    good: set<Call>)                // the calls that returned

  datatype Action =
    | Tick(d: nat)
    | Publish(eventId: string)
    | Join(group: string)
    | Read(w: nat, k: nat)
    | Dedup(w: nat)
    | Invoke(w: nat, ok: bool)
    | Complete(w: nat)
    | AckRaises(w: nat)    // the acknowledgement after the last handler raises, and counts as a failed attempt
    | Bury(w: nat)
    | Ack(w: nat)
    | Crash(w: nat)

  function Cursor(s: System, g: string): nat {
    if g in s.cursors then s.cursors[g] else 0
  }

  function Runs(runs: map<(nat, nat), nat>, pass: nat, h: nat): nat {
    if (pass, h) in runs then runs[(pass, h)] else 0
  }

  predicate Alive(s: System, w: nat) {
    w < |s.workers| && !s.workers[w].crashed
  }

  predicate Busy(s: System, w: nat) {
    Alive(s, w) && s.workers[w].batch != [] && s.workers[w].batch[0] < |s.stream|
  }

  function HandlerCount(c: Config, s: System, w: nat): nat
    requires Busy(s, w)
  {
    c.handlers(s.workers[w].group, s.workers[w].batch[0])
  }

  predicate KeyLives(s: System, eventId: string) {
    eventId in s.seen && s.now < s.seen[eventId]
  }

  predicate Enabled(c: Config, s: System, a: Action) {
    match a
    case Tick(_) => true
    case Publish(_) => true
    case Join(_) => true
    case Read(w, k) => Alive(s, w) && s.workers[w].batch == [] && 0 < k && Cursor(s, s.workers[w].group) + k <= |s.stream|
    case Dedup(w) => Busy(s, w) && s.workers[w].stage.Next?
    case Invoke(w, _) => Busy(s, w) && s.workers[w].stage.Running? && s.workers[w].stage.h < HandlerCount(c, s, w)
    case Complete(w) => Busy(s, w) && s.workers[w].stage.Running? && s.workers[w].stage.h >= HandlerCount(c, s, w)
    case AckRaises(w) => Busy(s, w) && s.workers[w].stage.Running? && s.workers[w].stage.h >= HandlerCount(c, s, w)
    case Bury(w) => Busy(s, w) && s.workers[w].stage.GivenUp?
    case Ack(w) => Busy(s, w) && s.workers[w].stage.Acking?
    case Crash(w) => Alive(s, w)
  }

  function Goto(s: System, w: nat, stage: Stage): System
    requires w < |s.workers|
  {
    s.(workers := s.workers[w := s.workers[w].(stage := stage)])
  }

  // Where a consumer goes on after an attempt has failed.
  function Retry(c: Config, st: Stage): Stage
    requires st.Running?
  {
    if st.attempt < c.maxRetries then Running(st.pass, st.attempt + 1, 0) else GivenUp(st.pass)
  }

  predicate IsFrom(i: nat, first: nat) { first <= i }

  function After(c: Config, s: System, a: Action): System
    requires Enabled(c, s, a)
  {
    match a
    case Tick(d) => s.(now := s.now + d)
    case Publish(id) => s.(stream := s.stream + [id])
    case Join(g) => s.(workers := s.workers + [Worker(g, [], Next, false)])
    case Read(w, k) =>
      var g := s.workers[w].group;
      var first := Cursor(s, g);
      s.(cursors := s.cursors[g := first + k],
         pending := s.pending + (set i: nat | first <= i < first + k && IsFrom(i, first) :: (g, i)),
         workers := s.workers[w := s.workers[w].(batch := seq(k, j => first + j), stage := Next)])
    case Dedup(w) =>
      var g, entry := s.workers[w].group, s.workers[w].batch[0];
      var id := s.stream[entry];
      if KeyLives(s, id) then Goto(s, w, Acking(AlreadySeen))
      else Goto(s, w, if 1 <= c.maxRetries then Running(|s.passes|, 1, 0) else GivenUp(|s.passes|))
           .(seen := s.seen[id := s.now + c.dedupTtl], passes := s.passes + [Pass(id, s.now, g, entry, w)])
    case Invoke(w, ok) =>
      var st := s.workers[w].stage;
      Goto(s, w, if ok then st.(h := st.h + 1) else Retry(c, st))
      .(runs := s.runs[(st.pass, st.h) := Runs(s.runs, st.pass, st.h) + 1],
        good := if ok then s.good + {Call(st.pass, st.attempt, st.h)} else s.good)
    case Complete(w) => Goto(s, w, Acking(Handled(s.workers[w].stage.pass)))
    case AckRaises(w) => Goto(s, w, Retry(c, s.workers[w].stage))
    case Bury(w) =>
      Goto(s, w, Acking(DeadLettered(s.workers[w].stage.pass))).(dlq := s.dlq + [(s.workers[w].group, s.workers[w].batch[0])])
    case Ack(w) =>
      var g, entry := s.workers[w].group, s.workers[w].batch[0];
      s.(acked := s.acked + [(g, entry, s.workers[w].stage.reason)], pending := s.pending - {(g, entry)},
         workers := s.workers[w := s.workers[w].(batch := s.workers[w].batch[1..], stage := Next)])
    case Crash(w) => s.(workers := s.workers[w := s.workers[w].(crashed := true)])
  }

  const START := System(0, [], map[], {}, map[], [], [], [], [], map[], {})

  predicate Step(c: Config, s: System, a: Action, t: System) {
    Enabled(c, s, a) && t == After(c, s, a)
  }

  predicate Run(c: Config, states: seq<System>, acts: seq<Action>) {
    && |states| == |acts| + 1 && states[0] == START
    && forall k :: 0 <= k < |acts| ==> Step(c, states[k], acts[k], states[k + 1])
  }

  // --- Dedup: at most one delivery per event while its key lives --------

  // Deliveries of one event lie a whole key lifetime apart.
  ghost predicate SpacedOut(passes: seq<Pass>, ttl: int) {
    forall p, q :: 0 <= p < q < |passes| && passes[p].eventId == passes[q].eventId ==> passes[p].at + ttl <= passes[q].at
  }

  // The key outlives every delivery by its lifetime.
  ghost predicate KeyCovers(passes: seq<Pass>, seen: map<string, int>, now: int, ttl: int) {
    forall p :: 0 <= p < |passes| ==>
                  passes[p].at <= now && passes[p].eventId in seen && passes[p].at + ttl <= seen[passes[p].eventId]
  }

  ghost predicate KeyFrom(passes: seq<Pass>, id: string) {
    exists p :: 0 <= p < |passes| && passes[p].eventId == id
  }

  // The key was last set by a delivery of the event at this time.
  ghost predicate KeySetAt(passes: seq<Pass>, id: string, at: int) {
    exists p :: 0 <= p < |passes| && passes[p].eventId == id && passes[p].at == at
  }

  ghost predicate DedupOk(passes: seq<Pass>, seen: map<string, int>, now: int, ttl: int) {
    && KeyCovers(passes, seen, now, ttl)
    && SpacedOut(passes, ttl)
    && forall id :: id in seen ==> KeySetAt(passes, id, seen[id] - ttl)
  }

  ghost predicate DedupInv(c: Config, s: System) { DedupOk(s.passes, s.seen, s.now, c.dedupTtl) }

  lemma MarkSpaces(passes: seq<Pass>, seen: map<string, int>, p: Pass, ttl: int)
    requires SpacedOut(passes, ttl) && KeyCovers(passes, seen, p.at, ttl)
    requires p.eventId in seen ==> seen[p.eventId] <= p.at
    ensures SpacedOut(passes + [p], ttl)
  {
  }

  lemma MarkIsKept(passes: seq<Pass>, p: Pass, id: string, at: int)
    requires KeySetAt(passes, id, at)
    ensures KeySetAt(passes + [p], id, at)
  {
    var q :| 0 <= q < |passes| && passes[q].eventId == id && passes[q].at == at;
    assert (passes + [p])[q] == passes[q];
  }

  lemma DedupMarks(passes: seq<Pass>, seen: map<string, int>, p: Pass, ttl: int)
    requires 0 <= ttl && DedupOk(passes, seen, p.at, ttl) && (p.eventId in seen ==> seen[p.eventId] <= p.at)
    ensures DedupOk(passes + [p], seen[p.eventId := p.at + ttl], p.at, ttl)
  {
    var grown, marked := passes + [p], seen[p.eventId := p.at + ttl];
    MarkSpaces(passes, seen, p, ttl);
    forall id | id in marked
      ensures KeySetAt(grown, id, marked[id] - ttl)
    {
      if id == p.eventId {
        assert grown[|passes|] == p;
      } else {
        MarkIsKept(passes, p, id, seen[id] - ttl);
      }
    }
  }

  lemma DedupLater(passes: seq<Pass>, seen: map<string, int>, now: int, later: int, ttl: int)
    requires DedupOk(passes, seen, now, ttl) && now <= later
    ensures DedupOk(passes, seen, later, ttl)
  {
  }

  // All steps but a first sight leave the marks alone.
  lemma OthersMarkNothing(c: Config, s: System, a: Action)
    requires Enabled(c, s, a) && !(a.Dedup? && !KeyLives(s, s.stream[s.workers[a.w].batch[0]]))
    ensures var t := After(c, s, a); t.passes == s.passes && t.seen == s.seen && s.now <= t.now
  {
  }

  lemma DedupStep(c: Config, s: System, a: Action)
    requires 0 <= c.dedupTtl && DedupInv(c, s) && Enabled(c, s, a)
    ensures DedupInv(c, After(c, s, a))
  {
    if a.Dedup? && !KeyLives(s, s.stream[s.workers[a.w].batch[0]]) {
      var g, entry := s.workers[a.w].group, s.workers[a.w].batch[0];
      DedupMarks(s.passes, s.seen, Pass(s.stream[entry], s.now, g, entry, a.w), c.dedupTtl);
    } else {
      OthersMarkNothing(c, s, a);
      DedupLater(s.passes, s.seen, s.now, After(c, s, a).now, c.dedupTtl);
    }
  }

  // --- Deliveries -------------------------------------------------------

  // Some attempt of the delivery called all n handlers and each returned.
  ghost predicate FullyHandled(s: System, pass: nat, n: nat) {
    exists attempt :: AllReturned(s.good, pass, attempt, n)
  }

  ghost predicate AllReturned(good: set<Call>, pass: nat, attempt: int, n: nat) {
    forall h :: 0 <= h < n ==> Call(pass, attempt, h) in good
  }

  predicate PassOf(s: System, pass: nat, w: nat)
    requires Busy(s, w)
  {
    && DeliveredIn(s, pass, s.workers[w].group, s.workers[w].batch[0])
    && s.passes[pass].owner == w
  }

  // Delivery `pass` was of this entry, of which it has the id, to group g.
  predicate DeliveredIn(s: System, pass: nat, g: string, entry: nat) {
    && pass < |s.passes| && entry < |s.stream|
    && s.passes[pass].group == g && s.passes[pass].entry == entry && s.passes[pass].eventId == s.stream[entry]
  }

  // Entry `entry` of group g was rightly acknowledged for this reason.
  ghost predicate Justified(c: Config, s: System, g: string, entry: nat, reason: Reason) {
    && entry < |s.stream|
    && match reason
       case Handled(pass) =>
         && DeliveredIn(s, pass, g, entry)
         && FullyHandled(s, pass, c.handlers(g, entry))
       case DeadLettered(pass) => DeliveredIn(s, pass, g, entry) && (g, entry) in s.dlq
       case AlreadySeen => KeyFrom(s.passes, s.stream[entry])
  }

  // What is true of a consumer that is working on an entry.
  ghost predicate WorkerOk(c: Config, s: System, w: nat)
    requires w < |s.workers|
  {
    && (forall i :: 0 <= i < |s.workers[w].batch| ==> s.workers[w].batch[i] < |s.stream|)
    && (Busy(s, w) ==>
          match s.workers[w].stage
          case Next => true
          case Running(pass, attempt, h) =>
            && PassOf(s, pass, w) && 1 <= attempt <= c.maxRetries && h <= HandlerCount(c, s, w)
            && AllReturned(s.good, pass, attempt, h)
            && forall g: nat :: Runs(s.runs, pass, g) <= if g < h then attempt else attempt - 1
          case GivenUp(pass) => PassOf(s, pass, w)
          case Acking(reason) =>
            && Justified(c, s, s.workers[w].group, s.workers[w].batch[0], reason)
            && (!reason.AlreadySeen? ==> s.passes[reason.pass].owner == w))
  }

  ghost predicate CallsBounded(runs: map<(nat, nat), nat>, maxRetries: int) {
    forall pass: nat, h: nat :: Runs(runs, pass, h) <= Max(maxRetries, 0)
  }

  // Deliveries that do not exist yet have called nothing.
  ghost predicate NoneBeyond(runs: map<(nat, nat), nat>, passes: nat) {
    forall pass: nat, h: nat :: passes <= pass ==> Runs(runs, pass, h) == 0
  }

  ghost predicate DeliveryInv(c: Config, s: System) {
    && (forall w :: 0 <= w < |s.workers| ==> WorkerOk(c, s, w))
    && CallsBounded(s.runs, c.maxRetries) && NoneBeyond(s.runs, |s.passes|)
    && (forall k :: 0 <= k < |s.acked| ==> Justified(c, s, s.acked[k].0, s.acked[k].1, s.acked[k].2))
  }

  // Everything a justification rests on only grows.
  ghost predicate Extends(s: System, t: System) {
    && s.stream <= t.stream && s.passes <= t.passes && s.good <= t.good && s.dlq <= t.dlq
  }

  lemma StaysJustified(c: Config, s: System, t: System, g: string, entry: nat, reason: Reason)
    requires Extends(s, t) && Justified(c, s, g, entry, reason)
    ensures Justified(c, t, g, entry, reason)
  {
    match reason
    case Handled(pass) =>
      var attempt :| AllReturned(s.good, pass, attempt, c.handlers(g, entry));
      assert AllReturned(t.good, pass, attempt, c.handlers(g, entry));
    case DeadLettered(_) =>
    case AlreadySeen =>
      var p :| 0 <= p < |s.passes| && s.passes[p].eventId == s.stream[entry];
      assert t.passes[p] == s.passes[p];
  }

  // A step of another consumer, or of the environment, leaves this one as it was.
  lemma Untouched(c: Config, s: System, t: System, w: nat)
    requires Extends(s, t) && w < |s.workers| && w < |t.workers| && t.workers[w] == s.workers[w] && WorkerOk(c, s, w)
    requires forall pass: nat, h: nat :: pass < |s.passes| && s.passes[pass].owner == w ==> Runs(t.runs, pass, h) == Runs(s.runs, pass, h)
    ensures WorkerOk(c, t, w)
  {
    if Busy(t, w) && s.workers[w].stage.Acking? {
      StaysJustified(c, s, t, s.workers[w].group, s.workers[w].batch[0], s.workers[w].stage.reason);
    }
  }

  lemma OwnDedup(c: Config, s: System, w: nat)
    requires DeliveryInv(c, s) && DedupInv(c, s) && Enabled(c, s, Dedup(w))
    ensures WorkerOk(c, After(c, s, Dedup(w)), w)
  {
    assert WorkerOk(c, s, w);
    var id := s.stream[s.workers[w].batch[0]];
    if KeyLives(s, id) {
      assert KeySetAt(s.passes, id, s.seen[id] - c.dedupTtl);
    } else {
      assert forall g: nat :: Runs(s.runs, |s.passes|, g) == 0;
    }
  }

  // One more call of handler `st.h` stays within what the attempt allows.
  lemma OwnInvoke(c: Config, s: System, w: nat, ok: bool)
    requires DeliveryInv(c, s) && Enabled(c, s, Invoke(w, ok))
    ensures var t := After(c, s, Invoke(w, ok));
            WorkerOk(c, t, w) && CallsBounded(t.runs, c.maxRetries) && NoneBeyond(t.runs, |t.passes|)
    ensures var st := s.workers[w].stage;
            forall pass: nat, g: nat :: pass != st.pass ==>
              Runs(After(c, s, Invoke(w, ok)).runs, pass, g) == Runs(s.runs, pass, g)
  {
    assert WorkerOk(c, s, w);
    var st := s.workers[w].stage;
    var t := After(c, s, Invoke(w, ok));
    forall pass: nat, g: nat
      ensures Runs(t.runs, pass, g) == Runs(s.runs, pass, g) + if pass == st.pass && g == st.h then 1 else 0
    {
    }
    assert Runs(s.runs, st.pass, st.h) <= st.attempt - 1;
  }

  lemma OwnFinish(c: Config, s: System, a: Action)
    requires DeliveryInv(c, s) && Enabled(c, s, a) && (a.Complete? || a.AckRaises? || a.Bury? || a.Ack? || a.Read? || a.Crash?)
    ensures WorkerOk(c, After(c, s, a), a.w)
  {
    assert WorkerOk(c, s, a.w);
    if a.Complete? {
      var st := s.workers[a.w].stage;
      assert AllReturned(s.good, st.pass, st.attempt, HandlerCount(c, s, a.w));
    }
  }

  predicate Own(a: Action) { !a.Tick? && !a.Publish? && !a.Join? }

  lemma OwnStep(c: Config, s: System, a: Action)
    requires DeliveryInv(c, s) && DedupInv(c, s) && Enabled(c, s, a) && Own(a)
    ensures WorkerOk(c, After(c, s, a), a.w)
  {
    match a
    case Dedup(w) => OwnDedup(c, s, w);
    case Invoke(w, ok) => OwnInvoke(c, s, w, ok);
    case _ => OwnFinish(c, s, a);
  }

  lemma OtherStep(c: Config, s: System, a: Action, w: nat)
    requires DeliveryInv(c, s) && Enabled(c, s, a) && w < |s.workers| && (Own(a) ==> a.w != w)
    ensures WorkerOk(c, After(c, s, a), w)
  {
    var t := After(c, s, a);
    assert WorkerOk(c, s, w);
    if a.Invoke? {
      assert WorkerOk(c, s, a.w);
      OwnInvoke(c, s, a.w, a.ok);
    }
    Untouched(c, s, t, w);
  }

  // The acknowledgement recorded by a step is one the consumer was entitled to.
  lemma AckedStep(c: Config, s: System, a: Action)
    requires DeliveryInv(c, s) && Enabled(c, s, a)
    ensures var t := After(c, s, a);
            forall k :: 0 <= k < |t.acked| ==> Justified(c, t, t.acked[k].0, t.acked[k].1, t.acked[k].2)
  {
    var t := After(c, s, a);
    assert a.Ack? ==> WorkerOk(c, s, a.w);
    forall k | 0 <= k < |t.acked|
      ensures Justified(c, t, t.acked[k].0, t.acked[k].1, t.acked[k].2)
    {
      assert k < |s.acked| ==> t.acked[k] == s.acked[k];
      StaysJustified(c, s, t, t.acked[k].0, t.acked[k].1, t.acked[k].2);
    }
  }

  lemma DeliveryStep(c: Config, s: System, a: Action)
    requires DeliveryInv(c, s) && DedupInv(c, s) && Enabled(c, s, a)
    ensures DeliveryInv(c, After(c, s, a))
  {
    var t := After(c, s, a);
    AckedStep(c, s, a);
    if a.Invoke? {
      OwnInvoke(c, s, a.w, a.ok);
    }
    forall w | 0 <= w < |t.workers|
      ensures WorkerOk(c, t, w)
    {
      if w < |s.workers| {
        if Own(a) && a.w == w {
          OwnStep(c, s, a);
        } else {
          OtherStep(c, s, a, w);
        }
      }
    }
  }

  lemma {:induction false} RunInv(c: Config, states: seq<System>, acts: seq<Action>, n: nat)
    requires 0 <= c.dedupTtl && Run(c, states, acts) && n < |states|
    ensures DedupInv(c, states[n]) && DeliveryInv(c, states[n])
  {
    if n > 0 {
      RunInv(c, states, acts, n - 1);
      assert Step(c, states[n - 1], acts[n - 1], states[n]);
      DedupStep(c, states[n - 1], acts[n - 1]);
      DeliveryStep(c, states[n - 1], acts[n - 1]);
    }
  }

  /** With any number of consumers, groups and crashes: two deliveries of one
      event are a whole key lifetime apart, in whatever groups; no delivery
      calls a handler more than `maxRetries` times; and every acknowledged entry
      was fully handled, dead-lettered, or had been recorded as seen. */
  lemma DeliverySafety(c: Config, states: seq<System>, acts: seq<Action>, n: nat)
    requires 0 <= c.dedupTtl && Run(c, states, acts) && n < |states|
    ensures SpacedOut(states[n].passes, c.dedupTtl)
    ensures CallsBounded(states[n].runs, c.maxRetries)
    ensures forall k | 0 <= k < |states[n].acked| ::
              Justified(c, states[n], states[n].acked[k].0, states[n].acked[k].1, states[n].acked[k].2)
  {
    RunInv(c, states, acts, n);
  }

  // --- From any state on ------------------------------------------------

  // `s` can reach `t` by `acts`.
  predicate Leads(c: Config, s: System, acts: seq<Action>, t: System)
    decreases |acts|
  {
    if acts == [] then s == t
    else Enabled(c, s, acts[0]) && Leads(c, After(c, s, acts[0]), acts[1..], t)
  }

  lemma {:induction false} LeadsOn(c: Config, s: System, a: seq<Action>, t: System, b: seq<Action>, u: System)
    requires Leads(c, s, a, t) && Leads(c, t, b, u)
    ensures Leads(c, s, a + b, u)
    decreases |a|
  {
    if a == [] {
      assert a + b == b;
    } else {
      LeadsOn(c, After(c, s, a[0]), a[1..], t, b, u);
      assert (a + b)[1..] == a[1..] + b;
    }
  }

  lemma LeadsByOne(c: Config, s: System, a: Action, rest: seq<Action>, t: System)
    requires Enabled(c, s, a) && Leads(c, After(c, s, a), rest, t)
    ensures Leads(c, s, [a] + rest, t)
  {
    assert ([a] + rest)[1..] == rest;
  }

  // What holds in every reachable state.
  ghost predicate Reachable(c: Config, s: System) {
    0 <= c.dedupTtl && DedupInv(c, s) && DeliveryInv(c, s)
  }

  lemma ReachableStep(c: Config, s: System, a: Action)
    requires Reachable(c, s) && Enabled(c, s, a)
    ensures Reachable(c, After(c, s, a))
  {
    DedupStep(c, s, a);
    DeliveryStep(c, s, a);
  }

  lemma {:induction false} ReachableOn(c: Config, s: System, acts: seq<Action>, t: System)
    requires Reachable(c, s) && Leads(c, s, acts, t)
    ensures Reachable(c, t)
    decreases |acts|
  {
    if acts != [] {
      ReachableStep(c, s, acts[0]);
      ReachableOn(c, After(c, s, acts[0]), acts[1..], t);
    }
  }

  lemma {:induction false} RunLeads(c: Config, states: seq<System>, acts: seq<Action>, m: nat, n: nat)
    requires Run(c, states, acts) && m <= n < |states|
    ensures Leads(c, states[m], acts[m..n], states[n])
    decreases n - m
  {
    if m < n {
      assert Step(c, states[m], acts[m], states[m + 1]);
      RunLeads(c, states, acts, m + 1, n);
      assert acts[m..n] == [acts[m]] + acts[m + 1..n];
      LeadsByOne(c, states[m], acts[m], acts[m + 1..n], states[n]);
    }
  }

  // --- Which deliveries can still complete ------------------------------

  // Some live consumer is still calling the handlers of this delivery.
  predicate InProgress(s: System, pass: nat) {
    && pass < |s.passes|
    && var w := s.passes[pass].owner;
       Busy(s, w) && s.workers[w].stage.Running? && s.workers[w].stage.pass == pass
  }

  // The delivery is over, one way or the other, or its consumer has crashed.
  predicate Settled(s: System, pass: nat) {
    pass < |s.passes| && !InProgress(s, pass)
  }

  ghost predicate SameCalls(s: System, t: System, pass: nat) {
    && (forall attempt, h: nat :: Call(pass, attempt, h) in t.good <==> Call(pass, attempt, h) in s.good)
    && (forall h: nat :: Runs(t.runs, pass, h) == Runs(s.runs, pass, h))
  }

  lemma SettledInvoke(c: Config, s: System, w: nat, ok: bool, pass: nat)
    requires Reachable(c, s) && Enabled(c, s, Invoke(w, ok)) && Settled(s, pass)
    ensures s.workers[w].stage.pass != pass
    ensures SameCalls(s, After(c, s, Invoke(w, ok)), pass)
  {
    assert WorkerOk(c, s, w);
  }

  // The stage of a consumer that is not calling the handlers of `pass`.
  predicate Elsewhere(x: Worker, pass: nat) {
    x.batch == [] || !x.stage.Running? || x.stage.pass != pass || x.crashed
  }

  lemma ElsewhereStep(c: Config, s: System, a: Action, w: nat, pass: nat)
    requires Enabled(c, s, a) && pass < |s.passes| && w < |s.workers| && Elsewhere(s.workers[w], pass)
    ensures w < |After(c, s, a).workers| && Elsewhere(After(c, s, a).workers[w], pass)
  {
  }

  lemma CallsStep(c: Config, s: System, a: Action, pass: nat)
    requires Reachable(c, s) && Enabled(c, s, a) && Settled(s, pass)
    ensures SameCalls(s, After(c, s, a), pass)
  {
    if a.Invoke? {
      SettledInvoke(c, s, a.w, a.ok, pass);
    } else {
      assert After(c, s, a).good == s.good && After(c, s, a).runs == s.runs;
    }
  }

  // Settled, seen from the consumer that began the delivery.
  lemma SettledMeans(s: System, pass: nat)
    requires pass < |s.passes|
    requires var w := s.passes[pass].owner;
             w < |s.workers| ==> forall i :: 0 <= i < |s.workers[w].batch| ==> s.workers[w].batch[i] < |s.stream|
    ensures var w := s.passes[pass].owner;
            Settled(s, pass) <==> w >= |s.workers| || Elsewhere(s.workers[w], pass)
  {
  }

  lemma JoinsElsewhere(c: Config, s: System, a: Action, w: nat, pass: nat)
    requires Enabled(c, s, a) && |s.workers| <= w < |After(c, s, a).workers|
    ensures Elsewhere(After(c, s, a).workers[w], pass)
  {
  }

  lemma PassesStay(c: Config, s: System, a: Action)
    requires Enabled(c, s, a)
    ensures s.passes <= After(c, s, a).passes
  {
  }

  lemma SettledStep(c: Config, s: System, a: Action, pass: nat)
    requires Reachable(c, s) && Enabled(c, s, a) && Settled(s, pass)
    ensures var t := After(c, s, a);
            Settled(t, pass) && t.passes[pass] == s.passes[pass] && SameCalls(s, t, pass)
  {
    var w, t := s.passes[pass].owner, After(c, s, a);
    CallsStep(c, s, a, pass);
    PassesStay(c, s, a);
    ReachableStep(c, s, a);
    assert w < |s.workers| ==> WorkerOk(c, s, w);
    assert w < |t.workers| ==> WorkerOk(c, t, w);
    SettledMeans(s, pass);
    SettledMeans(t, pass);
    if w < |s.workers| {
      ElsewhereStep(c, s, a, w, pass);
    } else if w < |t.workers| {
      JoinsElsewhere(c, s, a, w, pass);
    }
  }

  lemma {:induction false} SettledStays(c: Config, s: System, acts: seq<Action>, t: System, pass: nat)
    requires Reachable(c, s) && Leads(c, s, acts, t) && Settled(s, pass)
    ensures Settled(t, pass) && t.passes[pass] == s.passes[pass] && SameCalls(s, t, pass)
    decreases |acts|
  {
    if acts != [] {
      SettledStep(c, s, acts[0], pass);
      ReachableStep(c, s, acts[0]);
      SettledStays(c, After(c, s, acts[0]), acts[1..], t, pass);
    }
  }

  lemma SameCallsSameHandled(s: System, t: System, pass: nat, n: nat)
    requires SameCalls(s, t, pass)
    ensures FullyHandled(t, pass, n) <==> FullyHandled(s, pass, n)
  {
    if attempt :| AllReturned(t.good, pass, attempt, n) {
      assert AllReturned(s.good, pass, attempt, n);
    }
    if attempt :| AllReturned(s.good, pass, attempt, n) {
      assert AllReturned(t.good, pass, attempt, n);
    }
  }

  // How many handlers a delivery has to call.
  function Duty(c: Config, s: System, pass: nat): nat
    requires pass < |s.passes|
  {
    c.handlers(s.passes[pass].group, s.passes[pass].entry)
  }

  // If every remaining handler returns, the attempt ends with the entry handled.
  lemma {:induction false} AllReturn(c: Config, s: System, w: nat) returns (acts: seq<Action>, t: System)
    requires Busy(s, w) && s.workers[w].stage.Running? && s.workers[w].stage.h <= HandlerCount(c, s, w)
    ensures Leads(c, s, acts, t) && t.stream == s.stream && t.passes == s.passes && t.acked == s.acked
    ensures t.workers == s.workers[w := s.workers[w].(stage := Acking(Handled(s.workers[w].stage.pass)))]
    decreases HandlerCount(c, s, w) - s.workers[w].stage.h
  {
    if s.workers[w].stage.h == HandlerCount(c, s, w) {
      t := After(c, s, Complete(w));
      acts := [Complete(w)];
      LeadsByOne(c, s, Complete(w), [], t);
    } else {
      var u := After(c, s, Invoke(w, true));
      acts, t := AllReturn(c, u, w);
      LeadsByOne(c, s, Invoke(w, true), acts, t);
      acts := [Invoke(w, true)] + acts;
    }
  }

  ghost predicate HandledLater(c: Config, s: System, pass: nat, acts: seq<Action>, t: System)
    requires pass < |s.passes|
  {
    Leads(c, s, acts, t) && FullyHandled(t, pass, Duty(c, s, pass))
  }

  /** In some continuation all handlers of a delivery return exactly when they
      already have, or a live consumer is still calling them: a delivery whose
      consumer crashed before that never completes. */
  lemma CompletesIff(c: Config, states: seq<System>, acts: seq<Action>, n: nat, pass: nat)
    requires 0 <= c.dedupTtl && Run(c, states, acts) && n < |states| && pass < |states[n].passes|
    ensures var s := states[n];
            (exists more, t :: HandledLater(c, s, pass, more, t))
            <==> FullyHandled(s, pass, Duty(c, s, pass)) || InProgress(s, pass)
  {
    RunInv(c, states, acts, n);
    var s := states[n];
    if FullyHandled(s, pass, Duty(c, s, pass)) {
      assert HandledLater(c, s, pass, [], s);
    } else if InProgress(s, pass) {
      var w := s.passes[pass].owner;
      assert WorkerOk(c, s, w);
      var more, t := AllReturn(c, s, w);
      ReachableOn(c, s, more, t);
      assert WorkerOk(c, t, w);
      assert HandledLater(c, s, pass, more, t);
    } else {
      forall more, t | Leads(c, s, more, t)
        ensures !HandledLater(c, s, pass, more, t)
      {
        SettledStays(c, s, more, t, pass);
        SameCallsSameHandled(s, t, pass, Duty(c, s, pass));
      }
    }
  }

  // The consumer that began the delivery has crashed.
  ghost predicate Orphaned(s: System, pass: nat) {
    pass < |s.passes| && s.passes[pass].owner < |s.workers| && s.workers[s.passes[pass].owner].crashed
  }

  /** The mark is made before the handlers run. If the consumer that made it
      crashes, its delivery stays as far as it got, finished or not: it calls no
      handler again, and for as long as the key lives no consumer of any group
      delivers the event again, so a republished copy is only acknowledged as
      seen. */
  lemma CrashLosesTheEvent(c: Config, states: seq<System>, acts: seq<Action>, m: nat, n: nat, pass: nat)
    requires 0 <= c.dedupTtl && Run(c, states, acts) && m <= n < |states| && Orphaned(states[m], pass)
    requires states[n].now < states[m].passes[pass].at + c.dedupTtl
    ensures pass < |states[n].passes| && states[n].passes[pass] == states[m].passes[pass]
    ensures forall h: nat :: Runs(states[n].runs, pass, h) == Runs(states[m].runs, pass, h)
    ensures forall k: nat :: FullyHandled(states[n], pass, k) <==> FullyHandled(states[m], pass, k)
    ensures forall q :: pass < q < |states[n].passes| ==> states[n].passes[q].eventId != states[m].passes[pass].eventId
  {
    RunInv(c, states, acts, m);
    RunInv(c, states, acts, n);
    RunLeads(c, states, acts, m, n);
    SettledStays(c, states[m], acts[m..n], states[n], pass);
    forall k: nat
      ensures FullyHandled(states[n], pass, k) <==> FullyHandled(states[m], pass, k)
    {
      SameCallsSameHandled(states[m], states[n], pass, k);
    }
  }

  const MARK: seq<Action> := [Publish("e"), Join("g"), Read(0, 1), Dedup(0)]

  // One event, read and marked by the one consumer of group g, about to call the first handler.
  function Marked(c: Config): System {
    System(0, ["e"], map["g" := 1], {("g", 0)}, map["e" := c.dedupTtl], [], [],
           [Worker("g", [0], Running(0, 1, 0), false)], [Pass("e", 0, "g", 0, 0)], map[], {})
  }

  lemma ReadsFirstEntry(c: Config, s: System)
    requires s == START.(stream := ["e"], workers := [Worker("g", [], Next, false)])
    ensures Enabled(c, s, Read(0, 1))
    ensures After(c, s, Read(0, 1)) ==
            s.(cursors := map["g" := 1], pending := {("g", 0)}, workers := [Worker("g", [0], Next, false)])
  {
    var t := After(c, s, Read(0, 1));
    assert t.workers[0].batch == [0];
    forall x
      ensures x in t.pending <==> x == ("g", 0)
    {
    }
  }

  lemma ReadLeads(c: Config) returns (s: System)
    ensures Leads(c, START, [Publish("e"), Join("g"), Read(0, 1)], s)
    ensures s == START.(stream := ["e"], cursors := map["g" := 1], pending := {("g", 0)},
                        workers := [Worker("g", [0], Next, false)])
  {
    var s1 := START.(stream := ["e"]);
    var s2 := s1.(workers := [Worker("g", [], Next, false)]);
    ReadsFirstEntry(c, s2);
    s := After(c, s2, Read(0, 1));
    LeadsByOne(c, s2, Read(0, 1), [], s);
    LeadsByOne(c, s1, Join("g"), [Read(0, 1)], s);
    LeadsByOne(c, START, Publish("e"), [Join("g"), Read(0, 1)], s);
  }

  lemma MarkLeads(c: Config)
    requires 1 <= c.maxRetries
    ensures Leads(c, START, MARK, Marked(c))
  {
    var s := ReadLeads(c);
    LeadsByOne(c, s, Dedup(0), [], Marked(c));
    LeadsOn(c, START, [Publish("e"), Join("g"), Read(0, 1)], s, [Dedup(0)], Marked(c));
  }

  /** Such a crash can come: a run in which an event is marked, none of its
      handlers was called, and its entry is left pending. */
  lemma CrashBeforeHandlers(c: Config) returns (t: System)
    requires 1 <= c.maxRetries && 0 < c.handlers("g", 0)
    ensures Leads(c, START, MARK + [Crash(0)], t)
    ensures Orphaned(t, 0) && t.passes[0].eventId == "e" && (KeyLives(t, "e") <==> 0 < c.dedupTtl)
    ensures ("g", 0) in t.pending && t.acked == [] && !FullyHandled(t, 0, c.handlers("g", 0))
  {
    MarkLeads(c);
    t := After(c, Marked(c), Crash(0));
    LeadsByOne(c, Marked(c), Crash(0), [], t);
    LeadsOn(c, START, MARK, Marked(c), [Crash(0)], t);
    forall attempt
      ensures !AllReturned(t.good, 0, attempt, c.handlers("g", 0))
    {
      assert Call(0, attempt, 0) !in t.good;
    }
  }

  // The only handler has returned, in the only attempt.
  function Returned(c: Config): System {
    Marked(c).(workers := [Worker("g", [0], Running(0, 1, 1), false)], runs := map[(0, 0) := 1], good := {Call(0, 1, 0)})
  }

  lemma HandlerReturns(c: Config)
    requires c.handlers("g", 0) == 1
    ensures Leads(c, Marked(c), [Invoke(0, true)], Returned(c))
  {
    LeadsByOne(c, Marked(c), Invoke(0, true), [], Returned(c));
  }

  lemma AckRaisesAtLast(c: Config) returns (t: System)
    requires c.maxRetries == 1 && c.handlers("g", 0) == 1
    ensures Leads(c, Returned(c), [AckRaises(0), Bury(0)], t)
    ensures t.good == {Call(0, 1, 0)} && t.dlq == [("g", 0)]
  {
    var s := Returned(c).(workers := [Worker("g", [0], GivenUp(0), false)]);
    t := s.(workers := [Worker("g", [0], Acking(DeadLettered(0)), false)], dlq := [("g", 0)]);
    LeadsByOne(c, s, Bury(0), [], t);
    LeadsByOne(c, Returned(c), AckRaises(0), [Bury(0)], t);
  }

  /** The acknowledgement is made where handler errors are caught: if it raises on
      the last attempt, an event whose handlers have all returned is dead-lettered. */
  lemma HandledYetDeadLettered(c: Config) returns (t: System)
    requires c.maxRetries == 1 && c.handlers("g", 0) == 1
    ensures Leads(c, START, MARK + [Invoke(0, true)] + [AckRaises(0), Bury(0)], t)
    ensures FullyHandled(t, 0, 1) && t.dlq == [("g", 0)]
  {
    MarkLeads(c);
    HandlerReturns(c);
    t := AckRaisesAtLast(c);
    LeadsOn(c, START, MARK, Marked(c), [Invoke(0, true)], Returned(c));
    LeadsOn(c, START, MARK + [Invoke(0, true)], Returned(c), [AckRaises(0), Bury(0)], t);
    assert AllReturned(t.good, 0, 1, 1);
  }

  // --- Fan-out to groups ------------------------------------------------

  // Delivery p of the event, to whatever group, is less than a key lifetime ago.
  predicate DeliveredLately(c: Config, s: System, id: string, p: nat) {
    p < |s.passes| && s.passes[p].eventId == id && s.now < s.passes[p].at + c.dedupTtl
  }

  /** Groups do not get their own copy of an event. The dedup check of a group
      puts an entry down as already seen exactly when the event was delivered
      less than a key lifetime ago to any group, its own or another; otherwise
      this group becomes the one it is delivered to. */
  lemma FanOutIff(c: Config, states: seq<System>, acts: seq<Action>, n: nat, w: nat)
    requires 0 <= c.dedupTtl && Run(c, states, acts) && n < |acts| && acts[n] == Dedup(w) && Busy(states[n], w)
    ensures w < |states[n + 1].workers|
    ensures var s, t := states[n], states[n + 1];
            var g, entry := s.workers[w].group, s.workers[w].batch[0];
            && (t.workers[w].stage == Acking(AlreadySeen) <==> exists p: nat :: DeliveredLately(c, s, s.stream[entry], p))
            && (t.workers[w].stage == Acking(AlreadySeen) ==> t.passes == s.passes)
            && (t.workers[w].stage != Acking(AlreadySeen) ==> t.passes == s.passes + [Pass(s.stream[entry], s.now, g, entry, w)])
  {
    var s := states[n];
    RunInv(c, states, acts, n);
    assert Step(c, s, acts[n], states[n + 1]);
    var id := s.stream[s.workers[w].batch[0]];
    if KeyLives(s, id) {
      var p: nat :| p < |s.passes| && s.passes[p].eventId == id && s.passes[p].at == s.seen[id] - c.dedupTtl;
      assert DeliveredLately(c, s, id, p);
    }
  }

  // The entry group g is working on, read by a consumer of group h as well.
  function ReadTwice(c: Config): System {
    Marked(c).(cursors := map["g" := 1, "h" := 1], pending := {("g", 0), ("h", 0)},
               workers := Marked(c).workers + [Worker("h", [0], Next, false)])
  }

  lemma ReadByBoth(c: Config)
    ensures Leads(c, Marked(c), [Join("h"), Read(1, 1)], ReadTwice(c))
  {
    var s := Marked(c).(workers := Marked(c).workers + [Worker("h", [], Next, false)]);
    var t := After(c, s, Read(1, 1));
    assert t.workers[1].batch == [0];
    forall x
      ensures x in t.pending <==> x == ("g", 0) || x == ("h", 0)
    {
    }
    assert t == ReadTwice(c);
    LeadsByOne(c, s, Read(1, 1), [], t);
    LeadsByOne(c, Marked(c), Join("h"), [Read(1, 1)], t);
  }

  /** So it goes: the entry that group g is working on is only "seen" for group h. */
  lemma SecondGroupGetsNothing(c: Config) returns (t: System)
    requires 1 <= c.maxRetries && 0 < c.dedupTtl
    ensures Leads(c, START, MARK + [Join("h"), Read(1, 1)] + [Dedup(1)], t)
    ensures |t.workers| == 2 && t.workers[1].group == "h" && t.workers[1].stage == Acking(AlreadySeen)
    ensures |t.passes| == 1 && t.passes[0].group == "g"
  {
    MarkLeads(c);
    ReadByBoth(c);
    t := ReadTwice(c).(workers := Marked(c).workers + [Worker("h", [0], Acking(AlreadySeen), false)]);
    LeadsByOne(c, ReadTwice(c), Dedup(1), [], t);
    LeadsOn(c, START, MARK, Marked(c), [Join("h"), Read(1, 1)], ReadTwice(c));
    LeadsOn(c, START, MARK + [Join("h"), Read(1, 1)], ReadTwice(c), [Dedup(1)], t);
  }
}
