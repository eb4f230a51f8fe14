/** One consumer of the event bus: routing, dedup, the retry loop, dead-letter
    routing and acknowledgement (`event_bus`). Times are milliseconds. */
module EventBus {
  import opened Common

  datatype Envelope = Envelope(eventId: string, eventType: string, payload: string)

  type Fields = map<string, string>

  /** The JSON text of an envelope; writing then reading gives it back. */
  datatype Json = Json(dump: Envelope -> string, load: string -> Option<Envelope>) {
    ghost predicate RoundTrips() {
      forall e :: load(dump(e)) == Some(e)
    }
  }

  // EventBus.publish
  function Publish(j: Json, e: Envelope): Fields {
    map["envelope" := j.dump(e)]
  }

  // EventBus.decode_envelope; None where it raises
  function Decode(j: Json, f: Fields): Option<Envelope> {
    if "envelope" in f then j.load(f["envelope"]) else None
  }

  // DLQHandler.route_to_dlq: the entry's own fields plus the failure context
  function DlqFields(f: Fields, entryId: string, stream: string, reason: string, attempts: string): Fields {
    f["_dlq_original_id" := entryId]["_dlq_original_stream" := stream]["_dlq_reason" := reason]["_dlq_attempt_count" := attempts]
  }

  lemma FieldNames()
    ensures |"envelope"| == 8 && |"_dlq_original_id"| == 16 && |"_dlq_original_stream"| == 20
    ensures |"_dlq_reason"| == 11 && |"_dlq_attempt_count"| == 18
  {
  }

  /** What was published is still there in its dead-letter entry, and beside it
      exactly the four fields of the failure context. */
  lemma DeadLetterDecodes(j: Json, e: Envelope, id: string, stream: string, reason: string, attempts: string)
    requires j.RoundTrips()
    ensures var letter := DlqFields(Publish(j, e), id, stream, reason, attempts);
            && Decode(j, letter) == Some(e)
            && letter.Keys == {"envelope", "_dlq_original_id", "_dlq_original_stream", "_dlq_reason", "_dlq_attempt_count"}
            && letter["_dlq_original_id"] == id && letter["_dlq_original_stream"] == stream
            && letter["_dlq_reason"] == reason && letter["_dlq_attempt_count"] == attempts
  {
    FieldNames();
  }

  // ------------------------------------------------------------------
  // Routing
  // ------------------------------------------------------------------

  type Handler = nat

  class EventRouter {
    var routes: map<string, seq<Handler>>

    function HandlersFor(eventType: string): seq<Handler>
      reads this
    {
      if eventType in routes then routes[eventType] else []
    }

    constructor ()
      ensures forall t :: HandlersFor(t) == []
    {
      routes := map[];
    }

    /** Handlers are kept in registration order, per event type. */
    method Register(eventType: string, handler: Handler)
      modifies this
      ensures HandlersFor(eventType) == old(HandlersFor(eventType)) + [handler]
      ensures forall t :: t != eventType ==> HandlersFor(t) == old(HandlersFor(t))
    {
      routes := routes[eventType := HandlersFor(eventType) + [handler]];
    }
  }

  // ------------------------------------------------------------------
  // The retry loop
  // ------------------------------------------------------------------

  /** `fails(a, h)` says whether handler h raises in attempt a (from 1). */
  type Failures = (nat, nat) -> bool

  // How many of n handlers attempt a calls: all, or up to the first that raises.
  function Reach(fails: Failures, a: nat, n: nat): nat {
    if n == 0 then 0
    else
      var r := Reach(fails, a, n - 1);
      if r < n - 1 || (0 < r && fails(a, r - 1)) then r else n
  }

  lemma {:induction false} ReachMeans(fails: Failures, a: nat, n: nat)
    ensures var r := Reach(fails, a, n);
            && r <= n && (0 < n ==> 0 < r)
            && (forall h :: 0 <= h < r - 1 ==> !fails(a, h))
            && (r < n ==> fails(a, r - 1))
  {
    if 0 < n {
      ReachMeans(fails, a, n - 1);
    }
  }

  predicate Clean(fails: Failures, a: nat, n: nat) {
    forall h :: 0 <= h < n ==> !fails(a, h)
  }

  /** `Broken`: an empty back-off tuple makes the first retry raise IndexError
      out of the loop, so the entry is neither acknowledged nor dead-lettered. */
  datatype Verdict = Succeeded | Exhausted | Broken

  // What one delivery did: handlers reached in each attempt, and the sleeps.
  datatype Delivery = Delivery(verdict: Verdict, reached: seq<nat>, slept: seq<int>)

  // The delay before retry i (from 0): past the end of the tuple its last value is reused.
  function Delay(backoff: seq<int>, i: nat): int
    requires backoff != []
  {
    backoff[Min(i, |backoff| - 1)]
  }

  /** The complete account of a delivery to n handlers. Any two deliveries that
      satisfy it are equal (see DeliveryIsDetermined). */
  ghost predicate Accounts(d: Delivery, n: nat, maxRetries: int, backoff: seq<int>, fails: Failures) {
    var k := |d.reached|;
    && (forall i :: 0 <= i < k ==> d.reached[i] == Reach(fails, i + 1, n))
    && (forall a :: 1 <= a < k ==> !Clean(fails, a, n))
    && (d.slept != [] ==> backoff != [] && forall i :: 0 <= i < |d.slept| ==> d.slept[i] == Delay(backoff, i))
    && k <= Max(maxRetries, 0)
    && match d.verdict
       case Succeeded => 0 < k && Clean(fails, k, n) && |d.slept| == k - 1
       case Exhausted =>
         k == Max(maxRetries, 0) && (0 < k ==> !Clean(fails, k, n)) && |d.slept| == Max(k - 1, 0)
       case Broken => backoff == [] && k == 1 && 1 < maxRetries && !Clean(fails, 1, n) && d.slept == []
  }

  lemma DeliveryIsDetermined(d: Delivery, e: Delivery, n: nat, maxRetries: int, backoff: seq<int>, fails: Failures)
    requires Accounts(d, n, maxRetries, backoff, fails) && Accounts(e, n, maxRetries, backoff, fails)
    ensures d == e
  {
    assert |d.reached| == |e.reached|;
    assert d.reached == e.reached;
    assert d.slept == e.slept;
  }

  /** A delivery breaks out of the consumer exactly when there is no delay to
      wait for, a retry is due, and the first attempt fails. */
  lemma BrokenIff(d: Delivery, n: nat, maxRetries: int, backoff: seq<int>, fails: Failures)
    requires Accounts(d, n, maxRetries, backoff, fails)
    ensures d.verdict.Broken? <==> backoff == [] && 1 < maxRetries && !Clean(fails, 1, n)
  {
  }

  /** One failing handler, two attempts allowed and no delays: the delivery breaks. */
  lemma EmptyBackoffBreaks()
    ensures Accounts(Delivery(Broken, [1], []), 1, 2, [], (attempt, handler) => true)
  {
    var fails: Failures := (attempt, handler) => true;
    assert fails(1, 0);
    assert !Clean(fails, 1, 1);
    assert Reach(fails, 1, 1) == 1;
  }

  // One pass over the handlers, up to the first that raises.
  method Attempt(n: nat, a: nat, fails: Failures) returns (r: nat, clean: bool)
    ensures r == Reach(fails, a, n) && clean == Clean(fails, a, n)
  {
    var h := 0;
    while h < n && !fails(a, h)
      invariant 0 <= h <= n
      invariant forall i :: 0 <= i < h ==> !fails(a, i)
    {
      h := h + 1;
    }
    ReachIs(fails, a, n, h);
    r, clean := if h == n then n else h + 1, h == n;
  }

  // Consumer._process_entry, from the handlers on.
  method Deliver(n: nat, maxRetries: int, backoff: seq<int>, fails: Failures) returns (d: Delivery)
    ensures Accounts(d, n, maxRetries, backoff, fails)
  {
    var reached, slept := [], [];
    var attempt := 1;
    while attempt <= maxRetries
      invariant 1 <= attempt && |reached| == attempt - 1 <= Max(maxRetries, 0)
      invariant forall i :: 0 <= i < |reached| ==> reached[i] == Reach(fails, i + 1, n)
      invariant forall a :: 1 <= a < attempt ==> !Clean(fails, a, n)
      invariant slept != [] ==> backoff != [] && forall i :: 0 <= i < |slept| ==> slept[i] == Delay(backoff, i)
      invariant |slept| == if attempt <= maxRetries then attempt - 1 else Max(maxRetries - 1, 0)
      decreases maxRetries - attempt
    {
      var r, clean := Attempt(n, attempt, fails);
      reached := reached + [r];
      if clean {
        return Delivery(Succeeded, reached, slept);
      }
      if attempt < maxRetries {
        if backoff == [] {
          return Delivery(Broken, reached, slept);
        }
        slept := slept + [Delay(backoff, attempt - 1)];
      }
      attempt := attempt + 1;
    }
    return Delivery(Exhausted, reached, slept);
  }

  lemma {:induction false} ReachIs(fails: Failures, a: nat, n: nat, h: nat)
    requires h <= n && (forall i :: 0 <= i < h ==> !fails(a, i)) && (h < n ==> fails(a, h))
    ensures Reach(fails, a, n) == if h == n then n else h + 1
  {
    if 0 < n {
      ReachIs(fails, a, n - 1, if h < n then h else n - 1);
    }
  }

  // How often handler h was called in a delivery.
  function Calls(reached: seq<nat>, h: nat): nat {
    if reached == [] then 0
    else Calls(reached[..|reached| - 1], h) + if h < reached[|reached| - 1] then 1 else 0
  }

  function Sum(xs: seq<int>): int {
    if xs == [] then 0 else Sum(xs[..|xs| - 1]) + xs[|xs| - 1]
  }

  // The first k delays of the tuple, clamped to its last.
  function ClampedSum(backoff: seq<int>, k: nat): int
    requires backoff != []
  {
    if k == 0 then 0 else ClampedSum(backoff, k - 1) + Delay(backoff, k - 1)
  }

  lemma {:induction false} CallsFall(reached: seq<nat>, h: nat, g: nat)
    requires h <= g
    ensures Calls(reached, g) <= Calls(reached, h) <= |reached|
  {
    if reached != [] {
      CallsFall(reached[..|reached| - 1], h, g);
    }
  }

  lemma {:induction false} SleepsAddUp(slept: seq<int>, backoff: seq<int>)
    requires backoff != [] && forall i :: 0 <= i < |slept| ==> slept[i] == Delay(backoff, i)
    ensures Sum(slept) == ClampedSum(backoff, |slept|)
  {
    if slept != [] {
      SleepsAddUp(slept[..|slept| - 1], backoff);
    }
  }

  /** No handler is called more than `maxRetries` times, a later handler never
      more often than an earlier one, a success ends with one full pass over
      all of them, and the waiting adds up to the clamped delays. */
  lemma RetryBounds(d: Delivery, n: nat, maxRetries: int, backoff: seq<int>, fails: Failures, h: nat, g: nat)
    requires Accounts(d, n, maxRetries, backoff, fails) && h <= g
    ensures Calls(d.reached, g) <= Calls(d.reached, h) <= Max(maxRetries, 0)
    ensures d.verdict.Succeeded? ==> d.reached[|d.reached| - 1] == n
    ensures backoff != [] ==> Sum(d.slept) == ClampedSum(backoff, |d.slept|)
    ensures forall i :: 0 <= i < |d.slept| ==>
                          0 < |backoff| && d.slept[i] == if i < |backoff| then backoff[i] else backoff[|backoff| - 1]
  {
    CallsFall(d.reached, h, g);
    if d.verdict.Succeeded? {
      ReachIs(fails, |d.reached|, n, n);
    }
    if backoff != [] {
      SleepsAddUp(d.slept, backoff);
    }
  }

  // ------------------------------------------------------------------
  // Entries, one after the other
  // ------------------------------------------------------------------

  // `show` is Python's str on integers.
  datatype Config = Config(json: Json, stream: string, maxRetries: int, backoff: seq<int>, dedupTtl: int, show: int -> string)

  /** The keys this consumer's group shares: entries are numbered by their
      place in the stream. `acks` lists acknowledgements in order. */
  datatype Store = Store(now: int, cursor: nat, pending: set<nat>, acks: seq<nat>,
                         seen: map<string, int>, dlq: seq<Fields>)

  /** How one entry's handlers will behave: which calls raise, how long they
      take in all, and the id and error text a dead-letter entry would carry. */
  datatype Handling = Handling(fails: Failures, takes: nat, entryId: string, reason: string)

  datatype Fate = Handled | Duplicate | DeadLettered | Raised

  // SET NX with an expiry: the key still lives.
  predicate Seen(s: Store, eventId: string) {
    eventId in s.seen && s.now < s.seen[eventId]
  }

  function Ack(s: Store, i: nat): Store {
    s.(pending := s.pending - {i}, acks := s.acks + [i])
  }

  // The state after entry i meets fate `fate`, its delivery having been `d`.
  function Settle(c: Config, s: Store, i: nat, f: Fields, e: Envelope, x: Handling, d: Delivery): Store {
    var t := s.(seen := s.seen[e.eventId := s.now + c.dedupTtl], now := s.now + x.takes + Sum(d.slept));
    match d.verdict
    case Succeeded => Ack(t, i)
    case Exhausted => Ack(t.(dlq := t.dlq + [DlqFields(f, x.entryId, c.stream, x.reason, c.show(c.maxRetries))]), i)
    case Broken => t
  }

  // How entry i, with n handlers registered for its type, takes s to t.
  ghost predicate Processes(c: Config, s: Store, i: nat, f: Fields, n: nat, x: Handling, t: Store, fate: Fate) {
    match Decode(c.json, f)
    case None => fate == Raised && t == s
    case Some(e) =>
      if Seen(s, e.eventId) then fate == Duplicate && t == Ack(s, i)
      else exists d :: Accounts(d, n, c.maxRetries, c.backoff, x.fails)
             && t == Settle(c, s, i, f, e, x, d)
             && fate == (match d.verdict case Succeeded => Handled case Exhausted => DeadLettered case Broken => Raised)
  }

  // How many handlers are registered for an entry's event type.
  function HandlerCount(j: Json, routes: map<string, seq<Handler>>, f: Fields): nat {
    var e := Decode(j, f);
    if e.Some? && e.value.eventType in routes then |routes[e.value.eventType]| else 0
  }

  /** `trail` is the sequence of states through which the entries from `first`
      on are processed, each meeting its fate; only the last may raise. */
  ghost predicate Chain(c: Config, routes: map<string, seq<Handler>>, stream: seq<Fields>, xs: seq<Handling>,
                        first: nat, trail: seq<Store>, fates: seq<Fate>)
  {
    && first + |fates| <= |stream| && |xs| == |stream| && |trail| == |fates| + 1
    && (forall k :: 0 <= k < |fates| ==> Link(c, routes, stream, xs, first, trail, fates, k))
    && forall k :: 0 <= k < |fates| - 1 ==> fates[k] != Raised
  }

  ghost predicate Link(c: Config, routes: map<string, seq<Handler>>, stream: seq<Fields>, xs: seq<Handling>,
                       first: nat, trail: seq<Store>, fates: seq<Fate>, k: nat)
    requires k < |fates| && first + |fates| <= |stream| && |xs| == |stream| && |trail| == |fates| + 1
  {
    var f := stream[first + k];
    Processes(c, trail[k], first + k, f, HandlerCount(c.json, routes, f), xs[first + k], trail[k + 1], fates[k])
  }

  predicate IsId(i: nat, first: nat, n: nat) { first <= i < first + n }

  // The n entries read from `first` on.
  function Ids(first: nat, n: nat): set<nat> {
    set i: nat | first <= i < first + n && IsId(i, first, n)
  }

  class Consumer {
    const c: Config
    const router: EventRouter
    var now: int
    var cursor: nat
    var pending: set<nat>
    var acks: seq<nat>
    var seen: map<string, int>
    var dlq: seq<Fields>

    function Abs(): Store
      reads this
    {
      Store(now, cursor, pending, acks, seen, dlq)
    }

    constructor (c: Config, router: EventRouter, now: int)
      ensures this.c == c && this.router == router && Abs() == Store(now, 0, {}, [], map[], [])
    {
      this.c, this.router, this.now := c, router, now;
      cursor, pending, acks, seen, dlq := 0, {}, [], map[], [];
    }

    // EventDeduplicator.is_duplicate: checks and records in one step.
    method IsDuplicate(eventId: string) returns (dup: bool)
      modifies this
      ensures dup == old(Seen(Abs(), eventId))
      ensures Abs() == if dup then old(Abs())
                       else old(Abs()).(seen := old(seen)[eventId := now + c.dedupTtl])
    {
      dup := eventId in seen && now < seen[eventId];
      if !dup {
        seen := seen[eventId := now + c.dedupTtl];
      }
    }

    method ProcessEntry(i: nat, f: Fields, x: Handling) returns (fate: Fate)
      modifies this
      ensures Processes(c, old(Abs()), i, f, HandlerCount(c.json, router.routes, f), x, Abs(), fate)
      ensures cursor == old(cursor)
      ensures var e := Decode(c.json, f);
              e.Some? ==> HandlerCount(c.json, router.routes, f) == |router.HandlersFor(e.value.eventType)|
    {
      var e := Decode(c.json, f);
      if e.None? {
        return Raised;
      }
      var dup := IsDuplicate(e.value.eventId);
      if dup {
        pending, acks := pending - {i}, acks + [i];
        return Duplicate;
      }
      var d := Deliver(|router.HandlersFor(e.value.eventType)|, c.maxRetries, c.backoff, x.fails);
      now := now + x.takes + Sum(d.slept);
      match d.verdict {
        case Succeeded =>
          fate := Handled;
        case Exhausted =>
          dlq := dlq + [DlqFields(f, x.entryId, c.stream, x.reason, c.show(c.maxRetries))];
          fate := DeadLettered;
        case Broken =>
          return Raised;
      }
      pending, acks := pending - {i}, acks + [i];
    }

    /** XREADGROUP of up to `count` entries not yet given to the group, and the
        processing of each in turn. An exception out of an entry ends the pass
        and leaves it and the rest pending. */
    method PollOnce(stream: seq<Fields>, count: nat, xs: seq<Handling>)
      returns (fates: seq<Fate>, ghost trail: seq<Store>)
      requires 0 < count && cursor <= |stream| && |xs| == |stream|
      modifies this
      ensures Chain(c, router.routes, stream, xs, old(cursor), trail, fates)
      ensures var n := Min(count, |stream| - old(cursor));
              && 0 <= n && trail[0] == old(Abs()).(cursor := old(cursor) + n, pending := old(pending) + Ids(old(cursor), n))
              && |fates| <= n && (|fates| < n ==> fates != [] && fates[|fates| - 1] == Raised)
      ensures trail[|fates|] == Abs()
    {
      var first, n := cursor, Min(count, |stream| - cursor);
      pending := pending + Ids(first, n);
      cursor := first + n;
      fates, trail := [], [Abs()];
      for k := 0 to n
        invariant |fates| == k && |trail| == k + 1
        invariant Chain(c, router.routes, stream, xs, first, trail, fates) && Raised !in fates
        invariant trail[0] == old(Abs()).(cursor := first + n, pending := old(pending) + Ids(first, n)) && trail[k] == Abs()
      {
        var fate := ProcessEntry(first + k, stream[first + k], xs[first + k]);
        ChainGrows(c, router.routes, stream, xs, first, trail, fates, Abs(), fate);
        fates, trail := fates + [fate], trail + [Abs()];
        if fate == Raised {
          return;
        }
      }
    }
  }

  lemma ChainGrows(c: Config, routes: map<string, seq<Handler>>, stream: seq<Fields>, xs: seq<Handling>,
                   first: nat, trail: seq<Store>, fates: seq<Fate>, t: Store, fate: Fate)
    requires Chain(c, routes, stream, xs, first, trail, fates) && Raised !in fates && first + |fates| < |stream|
    requires var f := stream[first + |fates|];
             Processes(c, trail[|fates|], first + |fates|, f, HandlerCount(c.json, routes, f), xs[first + |fates|], t, fate)
    ensures Chain(c, routes, stream, xs, first, trail + [t], fates + [fate])
  {
    forall k | 0 <= k < |fates| + 1
      ensures Link(c, routes, stream, xs, first, trail + [t], fates + [fate], k)
    {
      assert k < |fates| ==> Link(c, routes, stream, xs, first, trail, fates, k);
    }
  }

  // The k-th attempt is the first in which no handler raises.
  ghost predicate FirstClean(fails: Failures, n: nat, k: nat) {
    0 < k && Clean(fails, k, n) && forall a :: 1 <= a < k ==> !Clean(fails, a, n)
  }

  lemma SettleTakes(c: Config, s: Store, i: nat, f: Fields, e: Envelope, n: nat, x: Handling, d: Delivery)
    requires Accounts(d, n, c.maxRetries, c.backoff, x.fails) && c.backoff != []
    ensures Settle(c, s, i, f, e, x, d).now == s.now + x.takes + ClampedSum(c.backoff, |d.slept|)
    ensures d.verdict.Exhausted? ==> |d.slept| == Max(c.maxRetries - 1, 0)
    ensures d.verdict.Succeeded? ==> FirstClean(x.fails, n, |d.slept| + 1) && |d.slept| < c.maxRetries
  {
    SleepsAddUp(d.slept, c.backoff);
  }

  /** What an entry holds up those behind it: nothing for a duplicate; for one
      handled in attempt k, its handlers' time and the first k - 1 delays; for a
      dead letter, the whole back-off. */
  lemma EntryTakes(c: Config, s: Store, i: nat, f: Fields, n: nat, x: Handling, t: Store, fate: Fate)
    requires Processes(c, s, i, f, n, x, t, fate) && c.backoff != []
    ensures fate == Duplicate ==> t.now == s.now
    ensures fate == DeadLettered ==> t.now == s.now + x.takes + ClampedSum(c.backoff, Max(c.maxRetries - 1, 0))
    ensures fate == Handled ==>
              exists k: nat :: FirstClean(x.fails, n, k) && k <= c.maxRetries && t.now == s.now + x.takes + ClampedSum(c.backoff, k - 1)
  {
    var e := Decode(c.json, f);
    if e.Some? && !Seen(s, e.value.eventId) {
      var d :| Accounts(d, n, c.maxRetries, c.backoff, x.fails) && t == Settle(c, s, i, f, e.value, x, d)
             && fate == (match d.verdict case Succeeded => Handled case Exhausted => DeadLettered case Broken => Raised);
      SettleTakes(c, s, i, f, e.value, n, x, d);
    }
  }

  // ------------------------------------------------------------------
  // What counts as a duplicate
  // ------------------------------------------------------------------

  // The k-th entry of a chain carries this event id and got past the dedup check.
  predicate DeliveredAt(j: Json, stream: seq<Fields>, first: nat, fates: seq<Fate>, k: nat, id: string) {
    && k < |fates| && first + k < |stream| && fates[k] != Duplicate
    && var e := Decode(j, stream[first + k]); e.Some? && e.value.eventId == id
  }

  // One entry sets the key of the event it delivers and no other.
  lemma KeyStep(c: Config, s: Store, i: nat, f: Fields, n: nat, x: Handling, t: Store, fate: Fate, id: string)
    requires Processes(c, s, i, f, n, x, t, fate)
    ensures var e := Decode(c.json, f);
            if fate != Duplicate && e.Some? && e.value.eventId == id
            then (id in s.seen ==> s.seen[id] <= s.now) && id in t.seen && t.seen[id] == s.now + c.dedupTtl
            else (id in t.seen <==> id in s.seen) && (id in s.seen ==> t.seen[id] == s.seen[id])
    ensures var e := Decode(c.json, f);
            fate == Duplicate <==> e.Some? && e.value.eventId in s.seen && s.now < s.seen[e.value.eventId]
  {
  }

  /** The key of `id` in state n outlasts the one there from the start and those
      of all deliveries before n, and is one of them. */
  ghost predicate KeyStands(c: Config, stream: seq<Fields>, first: nat, trail: seq<Store>, fates: seq<Fate>, n: nat, id: string)
    requires n <= |fates| < |trail|
  {
    var seen := trail[n].seen;
    && (id in trail[0].seen ==> id in seen && trail[0].seen[id] <= seen[id])
    && (forall i :: 0 <= i < n && DeliveredAt(c.json, stream, first, fates, i, id) ==>
                      id in seen && trail[i].now + c.dedupTtl <= seen[id])
    && (id in seen ==>
          || (id in trail[0].seen && seen[id] == trail[0].seen[id])
          || exists i :: 0 <= i < n && DeliveredAt(c.json, stream, first, fates, i, id) && seen[id] == trail[i].now + c.dedupTtl)
  }

  lemma {:induction false} KeysStand(c: Config, routes: map<string, seq<Handler>>, stream: seq<Fields>, xs: seq<Handling>,
                                     first: nat, trail: seq<Store>, fates: seq<Fate>, n: nat, id: string)
    requires Chain(c, routes, stream, xs, first, trail, fates) && 0 <= c.dedupTtl && n <= |fates|
    ensures KeyStands(c, stream, first, trail, fates, n, id)
  {
    if n > 0 {
      var k := n - 1;
      KeysStand(c, routes, stream, xs, first, trail, fates, k, id);
      assert Link(c, routes, stream, xs, first, trail, fates, k);
      var f := stream[first + k];
      KeyStep(c, trail[k], first + k, f, HandlerCount(c.json, routes, f), xs[first + k], trail[n], fates[k], id);
    }
  }

  /** An entry is a duplicate exactly when an earlier entry with its event id was
      delivered less than a key lifetime before, or a key from before the pass is
      still alive. */
  lemma DuplicateIff(c: Config, routes: map<string, seq<Handler>>, stream: seq<Fields>, xs: seq<Handling>,
                     first: nat, trail: seq<Store>, fates: seq<Fate>, j: nat)
    requires Chain(c, routes, stream, xs, first, trail, fates) && 0 <= c.dedupTtl
    requires j < |fates| && Decode(c.json, stream[first + j]).Some?
    ensures var id := Decode(c.json, stream[first + j]).value.eventId;
            fates[j] == Duplicate <==>
            || (id in trail[0].seen && trail[j].now < trail[0].seen[id])
            || exists i :: 0 <= i < j && DeliveredAt(c.json, stream, first, fates, i, id) && trail[j].now < trail[i].now + c.dedupTtl
  {
    var f := stream[first + j];
    var id := Decode(c.json, f).value.eventId;
    KeysStand(c, routes, stream, xs, first, trail, fates, j, id);
    assert Link(c, routes, stream, xs, first, trail, fates, j);
    KeyStep(c, trail[j], first + j, f, HandlerCount(c.json, routes, f), xs[first + j], trail[j + 1], fates[j], id);
  }

  /** So two deliveries of one event are at least a key lifetime apart. */
  lemma DeliveriesApart(c: Config, routes: map<string, seq<Handler>>, stream: seq<Fields>, xs: seq<Handling>,
                        first: nat, trail: seq<Store>, fates: seq<Fate>, i: nat, j: nat, id: string)
    requires Chain(c, routes, stream, xs, first, trail, fates) && 0 <= c.dedupTtl && i < j < |fates|
    requires DeliveredAt(c.json, stream, first, fates, i, id) && DeliveredAt(c.json, stream, first, fates, j, id)
    ensures trail[i].now + c.dedupTtl <= trail[j].now
  {
    DuplicateIff(c, routes, stream, xs, first, trail, fates, j);
  }

  // ------------------------------------------------------------------
  // What a pass adds up to
  // ------------------------------------------------------------------

  // Acknowledged in order: every entry that did not raise; still pending: the rest of what was read.
  ghost predicate BatchLedger(s: Store, t: Store, first: nat, n: nat, fates: seq<Fate>) {
    var k := if fates != [] && fates[|fates| - 1] == Raised then |fates| - 1 else |fates|;
    && k <= n
    && t.acks == s.acks + seq(k, i => first + i)
    && t.pending == (s.pending + Ids(first, n)) - Ids(first, k)
  }

  lemma LedgerStep(before: Store, s: Store, t: Store, first: nat, n: nat, fates: seq<Fate>, fate: Fate)
    requires Raised !in fates && |fates| < n && BatchLedger(before, s, first, n, fates)
    requires t.acks == s.acks + (if fate == Raised then [] else [first + |fates|])
    requires t.pending == s.pending - (if fate == Raised then {} else {first + |fates|})
    ensures BatchLedger(before, t, first, n, fates + [fate])
  {
    var k := |fates|;
    assert seq(k + 1, i => first + i) == seq(k, i => first + i) + [first + k];
  }

  function CountOf(fates: seq<Fate>, fate: Fate): nat {
    if fates == [] then 0 else CountOf(fates[..|fates| - 1], fate) + if fates[|fates| - 1] == fate then 1 else 0
  }

  // The letter of dead-lettered entry k stands in its turn and decodes as the entry does.
  ghost predicate LetterOk(j: Json, f: Fields, dlq: seq<Fields>, p: nat) {
    p < |dlq| && Decode(j, dlq[p]) == Decode(j, f)
  }

  ghost predicate BatchDlq(c: Config, stream: seq<Fields>, first: nat, dlq0: seq<Fields>, dlq: seq<Fields>, fates: seq<Fate>)
  {
    && first + |fates| <= |stream|
    && |dlq| == |dlq0| + CountOf(fates, DeadLettered) && dlq0 <= dlq
    && forall k :: 0 <= k < |fates| && fates[k] == DeadLettered ==>
                     LetterOk(c.json, stream[first + k], dlq, |dlq0| + CountOf(fates[..k], DeadLettered))
  }

  lemma DlqStep(c: Config, stream: seq<Fields>, first: nat, dlq0: seq<Fields>, s: seq<Fields>, t: seq<Fields>,
                fates: seq<Fate>, fate: Fate, x: Handling)
    requires first + |fates| < |stream| && BatchDlq(c, stream, first, dlq0, s, fates)
    requires t == s + (if fate == DeadLettered
                       then [DlqFields(stream[first + |fates|], x.entryId, c.stream, x.reason, c.show(c.maxRetries))] else [])
    ensures BatchDlq(c, stream, first, dlq0, t, fates + [fate])
  {
    var n, grown := |fates|, fates + [fate];
    assert grown[..n] == fates;
    if fate == DeadLettered {
      SameEnvelope(c.json, stream[first + n], x.entryId, c.stream, x.reason, c.show(c.maxRetries));
      assert LetterOk(c.json, stream[first + n], t, |s|);
    }
    forall k | 0 <= k < n && fates[k] == DeadLettered
      ensures LetterOk(c.json, stream[first + k], t, |dlq0| + CountOf(grown[..k], DeadLettered))
    {
      assert grown[..k] == fates[..k];
      assert LetterOk(c.json, stream[first + k], s, |dlq0| + CountOf(fates[..k], DeadLettered));
    }
  }

  lemma SameEnvelope(j: Json, f: Fields, id: string, stream: string, reason: string, attempts: string)
    ensures Decode(j, DlqFields(f, id, stream, reason, attempts)) == Decode(j, f)
  {
    FieldNames();
  }

  lemma ChainPrefix(c: Config, routes: map<string, seq<Handler>>, stream: seq<Fields>, xs: seq<Handling>,
                    first: nat, trail: seq<Store>, fates: seq<Fate>)
    requires Chain(c, routes, stream, xs, first, trail, fates) && fates != []
    ensures Chain(c, routes, stream, xs, first, trail[..|fates|], fates[..|fates| - 1])
    ensures Raised !in fates[..|fates| - 1]
  {
    var n := |fates| - 1;
    var tr, fs := trail[..n + 1], fates[..n];
    forall k | 0 <= k < n
      ensures Link(c, routes, stream, xs, first, tr, fs, k)
    {
      assert Link(c, routes, stream, xs, first, trail, fates, k);
    }
  }

  lemma ProcessEffects(c: Config, s: Store, i: nat, f: Fields, n: nat, x: Handling, t: Store, fate: Fate)
    requires Processes(c, s, i, f, n, x, t, fate)
    ensures t.acks == s.acks + (if fate == Raised then [] else [i])
    ensures t.pending == s.pending - (if fate == Raised then {} else {i})
    ensures t.dlq == s.dlq + (if fate == DeadLettered then [DlqFields(f, x.entryId, c.stream, x.reason, c.show(c.maxRetries))] else [])
  {
  }

  lemma AccountsStep(c: Config, stream: seq<Fields>, first: nat, n: nat, s0: Store, s: Store, t: Store,
                     fates: seq<Fate>, fate: Fate, handlers: nat, x: Handling)
    requires first + |fates| < |stream| && |fates| < n && Raised !in fates
    requires BatchLedger(s0, s, first, n, fates) && BatchDlq(c, stream, first, s0.dlq, s.dlq, fates)
    requires Processes(c, s, first + |fates|, stream[first + |fates|], handlers, x, t, fate)
    ensures BatchLedger(s0, t, first, n, fates + [fate]) && BatchDlq(c, stream, first, s0.dlq, t.dlq, fates + [fate])
  {
    ProcessEffects(c, s, first + |fates|, stream[first + |fates|], handlers, x, t, fate);
    LedgerStep(s0, s, t, first, n, fates, fate);
    DlqStep(c, stream, first, s0.dlq, s.dlq, t.dlq, fates, fate, x);
  }

  /** A pass leaves nothing pending of what it read, up to an entry that raises:
      it acknowledges each once and in order, and its dead letters, one for each
      dead-lettered entry and in order, decode to the original envelopes. */
  lemma {:induction false} PollAccounts(c: Config, routes: map<string, seq<Handler>>, stream: seq<Fields>, xs: seq<Handling>,
                                        first: nat, n: nat, s: Store, trail: seq<Store>, fates: seq<Fate>)
    requires Chain(c, routes, stream, xs, first, trail, fates) && |fates| <= n
    requires trail[0].acks == s.acks && trail[0].dlq == s.dlq && trail[0].pending == s.pending + Ids(first, n)
    ensures BatchLedger(s, trail[|fates|], first, n, fates)
    ensures BatchDlq(c, stream, first, s.dlq, trail[|fates|].dlq, fates)
    decreases |fates|
  {
    if fates == [] {
      assert seq(0, i => first + i) == [];
    } else {
      var k := |fates| - 1;
      ChainPrefix(c, routes, stream, xs, first, trail, fates);
      PollAccounts(c, routes, stream, xs, first, n, s, trail[..k + 1], fates[..k]);
      assert trail[..k + 1][k] == trail[k] && fates == fates[..k] + [fates[k]];
      assert Link(c, routes, stream, xs, first, trail, fates, k);
      AccountsStep(c, stream, first, n, s, trail[k], trail[k + 1], fates[..k], fates[k],
                   HandlerCount(c.json, routes, stream[first + k]), xs[first + k]);
    }
  }

  /** An entry raises out of the consumer exactly when it cannot be decoded, or
      it is new and its delivery has no delay to wait for when a retry is due. */
  lemma RaisesIff(c: Config, s: Store, i: nat, f: Fields, n: nat, x: Handling, t: Store, fate: Fate)
    requires Processes(c, s, i, f, n, x, t, fate)
    ensures var e := Decode(c.json, f);
            fate == Raised <==>
            e.None? || (!Seen(s, e.value.eventId) && c.backoff == [] && 1 < c.maxRetries && !Clean(x.fails, 1, n))
  {
  }

  predicate AllDecode(j: Json, stream: seq<Fields>, first: nat, n: nat) {
    first + n <= |stream| && forall i :: first <= i < first + n ==> Decode(j, stream[i]).Some?
  }

  lemma {:induction false} FatesAddUp(fates: seq<Fate>)
    requires Raised !in fates
    ensures CountOf(fates, Handled) + CountOf(fates, Duplicate) + CountOf(fates, DeadLettered) == |fates|
  {
    if fates != [] {
      var n := |fates| - 1;
      FatesAddUp(fates[..n]);
      assert fates[n] in fates;
    }
  }

  lemma NothingRaises(c: Config, routes: map<string, seq<Handler>>, stream: seq<Fields>, xs: seq<Handling>,
                      first: nat, n: nat, trail: seq<Store>, fates: seq<Fate>)
    requires Chain(c, routes, stream, xs, first, trail, fates) && |fates| <= n
    requires AllDecode(c.json, stream, first, n) && (c.backoff != [] || c.maxRetries <= 1)
    ensures Raised !in fates
  {
    forall k | 0 <= k < |fates|
      ensures fates[k] != Raised
    {
      assert Link(c, routes, stream, xs, first, trail, fates, k);
      var f := stream[first + k];
      RaisesIff(c, trail[k], first + k, f, HandlerCount(c.json, routes, f), xs[first + k], trail[k + 1], fates[k]);
    }
  }

  /** A pass over n entries that decode, with a delay to wait for if a retry can
      be due, and that ends early only where one raises (as PollOnce does): none
      raises, each is acknowledged once and in order, none is left pending, and
      handled, duplicate and dead-lettered ones add up to n, with one dead letter
      for each of the last. */
  lemma CrashFreePoll(c: Config, routes: map<string, seq<Handler>>, stream: seq<Fields>, xs: seq<Handling>,
                      first: nat, n: nat, s: Store, trail: seq<Store>, fates: seq<Fate>)
    requires Chain(c, routes, stream, xs, first, trail, fates) && |fates| <= n
    requires |fates| < n ==> fates != [] && fates[|fates| - 1] == Raised
    requires trail[0].acks == s.acks && trail[0].dlq == s.dlq && trail[0].pending == s.pending + Ids(first, n)
    requires AllDecode(c.json, stream, first, n) && (c.backoff != [] || c.maxRetries <= 1)
    ensures |fates| == n && Raised !in fates
    ensures trail[n].acks == s.acks + seq(n, i => first + i)
    ensures trail[n].pending == s.pending - Ids(first, n)
    ensures CountOf(fates, Handled) + CountOf(fates, Duplicate) + CountOf(fates, DeadLettered) == n
    ensures |trail[n].dlq| == |s.dlq| + CountOf(fates, DeadLettered)
  {
    NothingRaises(c, routes, stream, xs, first, n, trail, fates);
    PollAccounts(c, routes, stream, xs, first, n, s, trail, fates);
    FatesAddUp(fates);
  }
}
