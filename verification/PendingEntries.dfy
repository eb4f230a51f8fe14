/** The books of the consumer groups: every entry a group has read is pending with
    one consumer or acknowledged, and what a crash does to it. */
module PendingEntries {
  import opened Common
  import opened ConsumerGroups

  // --- Conservation: every entry read is pending or acknowledged --------

  // How often entry i was acknowledged in group g.
  function Acks(acked: seq<(string, nat, Reason)>, g: string, i: nat): nat {
    if acked == [] then 0
    else
      var last := acked[|acked| - 1];
      Acks(acked[..|acked| - 1], g, i) + if last.0 == g && last.1 == i then 1 else 0
  }

  ghost predicate Conserved(s: System) {
    forall g: string, i: nat ::
      Acks(s.acked, g, i) + (if (g, i) in s.pending then 1 else 0) == if i < Cursor(s, g) then 1 else 0
  }

  predicate Holds(s: System, w: nat, g: string, i: nat) {
    w < |s.workers| && s.workers[w].group == g && i in s.workers[w].batch
  }

  predicate Distinct(batch: seq<nat>) {
    batch == [] || (batch[0] !in batch[1..] && Distinct(batch[1..]))
  }

  // What is pending is in the batch of exactly one consumer, once.
  ghost predicate Custody(s: System) {
    && (forall w: nat, g: string, i: nat :: Holds(s, w, g, i) ==> (g, i) in s.pending)
    && (forall w: nat, v: nat, g: string, i: nat :: Holds(s, w, g, i) && Holds(s, v, g, i) ==> w == v)
    && (forall g: string, i: nat :: (g, i) in s.pending ==> exists w: nat :: Holds(s, w, g, i))
    && forall w :: 0 <= w < |s.workers| ==> Distinct(s.workers[w].batch)
  }

  lemma {:induction false} RangeIsDistinct(first: nat, k: nat)
    ensures Distinct(seq(k, j => first + j))
    decreases k
  {
    if k > 0 {
      var batch := seq(k, j => first + j);
      assert batch[1..] == seq(k - 1, j => first + 1 + j) by {
        forall j | 0 <= j < k - 1
          ensures batch[1..][j] == first + 1 + j
        {
        }
      }
      RangeIsDistinct(first + 1, k - 1);
    }
  }

  lemma ReadConserves(c: Config, s: System, w: nat, k: nat)
    requires Conserved(s) && Custody(s) && Enabled(c, s, Read(w, k))
    ensures Conserved(After(c, s, Read(w, k))) && Custody(After(c, s, Read(w, k)))
  {
    var t := After(c, s, Read(w, k));
    var g, first := s.workers[w].group, Cursor(s, s.workers[w].group);
    RangeIsDistinct(first, k);
    forall h: string, i: nat
      ensures (h, i) in t.pending <==> (h, i) in s.pending || (h == g && first <= i < first + k)
    {
    }
    forall h: string, i: nat
      ensures Acks(t.acked, h, i) + (if (h, i) in t.pending then 1 else 0) == if i < Cursor(t, h) then 1 else 0
    {
      assert Acks(s.acked, h, i) + (if (h, i) in s.pending then 1 else 0) == if i < Cursor(s, h) then 1 else 0;
    }
    forall v: nat, h: string, i: nat
      ensures Holds(t, v, h, i) <==> Holds(s, v, h, i) || (v == w && h == g && first <= i < first + k)
    {
      if v == w && h == g && first <= i < first + k {
        assert t.workers[w].batch[i - first] == i;
      }
    }
    forall i: nat | (g, i) in s.pending
      ensures i < first
    {
      assert Acks(s.acked, g, i) + (if (g, i) in s.pending then 1 else 0) == if i < Cursor(s, g) then 1 else 0;
    }
    forall h: string, i: nat | (h, i) in t.pending
      ensures exists v: nat :: Holds(t, v, h, i)
    {
      if (h, i) in s.pending {
        var v: nat :| Holds(s, v, h, i);
        assert Holds(t, v, h, i);
      } else {
        assert Holds(t, w, h, i);
      }
    }
  }

  lemma AckConserves(c: Config, s: System, w: nat)
    requires Conserved(s) && Custody(s) && Enabled(c, s, Ack(w))
    ensures Conserved(After(c, s, Ack(w))) && Custody(After(c, s, Ack(w)))
  {
    var t := After(c, s, Ack(w));
    var g, entry := s.workers[w].group, s.workers[w].batch[0];
    assert Holds(s, w, g, entry);
    assert t.acked[..|s.acked|] == s.acked;
    forall h: string, i: nat
      ensures Acks(t.acked, h, i) + (if (h, i) in t.pending then 1 else 0) == if i < Cursor(t, h) then 1 else 0
    {
      assert Acks(s.acked, h, i) + (if (h, i) in s.pending then 1 else 0) == if i < Cursor(s, h) then 1 else 0;
    }
    var rest := s.workers[w].batch[1..];
    assert s.workers[w].batch == [entry] + rest;
    forall v: nat, h: string, i: nat
      ensures Holds(t, v, h, i) <==> Holds(s, v, h, i) && !(h == g && i == entry)
    {
    }
    forall h: string, i: nat | (h, i) in t.pending
      ensures exists v: nat :: Holds(t, v, h, i)
    {
      var v: nat :| Holds(s, v, h, i);
      assert Holds(t, v, h, i);
    }
  }

  // The same entries are read, pending, acknowledged and held.
  ghost predicate SameBooks(s: System, t: System) {
    && t.acked == s.acked && t.pending == s.pending && t.cursors == s.cursors
    && (forall v: nat, h: string, i: nat :: Holds(t, v, h, i) <==> Holds(s, v, h, i))
    && forall w :: 0 <= w < |t.workers| ==> Distinct(t.workers[w].batch)
  }

  lemma SameBooksConserve(s: System, t: System)
    requires Conserved(s) && Custody(s) && SameBooks(s, t)
    ensures Conserved(t) && Custody(t)
  {
    forall h: string, i: nat
      ensures Acks(t.acked, h, i) + (if (h, i) in t.pending then 1 else 0) == if i < Cursor(t, h) then 1 else 0
    {
      assert Acks(s.acked, h, i) + (if (h, i) in s.pending then 1 else 0) == if i < Cursor(s, h) then 1 else 0;
    }
    forall h: string, i: nat | (h, i) in t.pending
      ensures exists v: nat :: Holds(t, v, h, i)
    {
      var v: nat :| Holds(s, v, h, i);
      assert Holds(t, v, h, i);
    }
  }

  // All other steps leave cursors, pending entries and batches alone.
  lemma OthersKeepBooks(c: Config, s: System, a: Action)
    requires Custody(s) && Enabled(c, s, a) && !a.Read? && !a.Ack?
    ensures SameBooks(s, After(c, s, a))
  {
  }

  lemma ConservationStep(c: Config, s: System, a: Action)
    requires Conserved(s) && Custody(s) && Enabled(c, s, a)
    ensures Conserved(After(c, s, a)) && Custody(After(c, s, a))
  {
    match a
    case Read(w, k) => ReadConserves(c, s, w, k);
    case Ack(w) => AckConserves(c, s, w);
    case _ =>
      OthersKeepBooks(c, s, a);
      SameBooksConserve(s, After(c, s, a));
  }

  lemma {:induction false} RunConserves(c: Config, states: seq<System>, acts: seq<Action>, n: nat)
    requires Run(c, states, acts) && n < |states|
    ensures Conserved(states[n]) && Custody(states[n])
  {
    if n > 0 {
      RunConserves(c, states, acts, n - 1);
      assert Step(c, states[n - 1], acts[n - 1], states[n]);
      ConservationStep(c, states[n - 1], acts[n - 1]);
    }
  }

  // Consecutive entries of the stream, in its order.
  predicate InARow(batch: seq<nat>) {
    forall j :: 0 <= j < |batch| ==> batch[j] == batch[0] + j
  }

  lemma {:induction false} BatchesInARow(c: Config, states: seq<System>, acts: seq<Action>, n: nat)
    requires Run(c, states, acts) && n < |states|
    ensures forall w :: 0 <= w < |states[n].workers| ==> InARow(states[n].workers[w].batch)
  {
    if n > 0 {
      BatchesInARow(c, states, acts, n - 1);
      assert Step(c, states[n - 1], acts[n - 1], states[n]);
    }
  }

  /** No entry is lost from the books or acknowledged twice: in every run with
      crashes, an entry below a group's cursor has been acknowledged once or is
      pending, never both, one above it neither; and what is pending lies in the
      batch of exactly one consumer, which has it in stream order. */
  lemma ReadEntriesConserved(c: Config, states: seq<System>, acts: seq<Action>, n: nat, g: string, i: nat)
    requires Run(c, states, acts) && n < |states|
    ensures var s := states[n];
            && Acks(s.acked, g, i) <= 1
            && (i < Cursor(s, g) <==> Acks(s.acked, g, i) == 1 || (g, i) in s.pending)
            && !(Acks(s.acked, g, i) == 1 && (g, i) in s.pending)
            && ((g, i) in s.pending <==> exists w: nat :: Holds(s, w, g, i))
            && (forall w: nat, v: nat :: Holds(s, w, g, i) && Holds(s, v, g, i) ==> w == v)
            && forall w :: 0 <= w < |s.workers| ==> InARow(s.workers[w].batch)
  {
    RunConserves(c, states, acts, n);
    BatchesInARow(c, states, acts, n);
    var s := states[n];
    assert Acks(s.acked, g, i) + (if (g, i) in s.pending then 1 else 0) == if i < Cursor(s, g) then 1 else 0;
  }

  // What a consumer held when it crashed stays with it.
  ghost predicate Abandoned(s: System, w: nat, g: string, i: nat) {
    Holds(s, w, g, i) && s.workers[w].crashed
  }

  lemma AbandonedStep(c: Config, s: System, a: Action, w: nat, g: string, i: nat)
    requires Enabled(c, s, a) && Abandoned(s, w, g, i)
    ensures Abandoned(After(c, s, a), w, g, i)
  {
  }

  lemma {:induction false} AbandonedStays(c: Config, s: System, acts: seq<Action>, t: System, w: nat, g: string, i: nat)
    requires Leads(c, s, acts, t) && Abandoned(s, w, g, i)
    ensures Abandoned(t, w, g, i)
    decreases |acts|
  {
    if acts != [] {
      AbandonedStep(c, s, acts[0], w, g, i);
      AbandonedStays(c, After(c, s, acts[0]), acts[1..], t, w, g, i);
    }
  }

  lemma {:induction false} ConservedOn(c: Config, s: System, acts: seq<Action>, t: System)
    requires Conserved(s) && Custody(s) && Leads(c, s, acts, t)
    ensures Conserved(t) && Custody(t)
    decreases |acts|
  {
    if acts != [] {
      ConservationStep(c, s, acts[0]);
      ConservedOn(c, After(c, s, acts[0]), acts[1..], t);
    }
  }

  lemma HeldIsUnacked(s: System, w: nat, g: string, i: nat)
    requires Conserved(s) && Custody(s) && Holds(s, w, g, i)
    ensures (g, i) in s.pending && Acks(s.acked, g, i) == 0
  {
    assert Acks(s.acked, g, i) + (if (g, i) in s.pending then 1 else 0) == if i < Cursor(s, g) then 1 else 0;
  }

  /** Nothing is read twice: what a consumer holds when it crashes stays pending
      in its group for ever, is never acknowledged and never handed to another. */
  lemma PendingIsNeverReread(c: Config, states: seq<System>, acts: seq<Action>, m: nat, n: nat,
                             w: nat, g: string, i: nat)
    requires Run(c, states, acts) && m <= n < |states| && Abandoned(states[m], w, g, i)
    ensures var s := states[n];
            && Abandoned(s, w, g, i)
            && (g, i) in s.pending && Acks(s.acked, g, i) == 0
            && forall v: nat :: Holds(s, v, g, i) ==> v == w
  {
    RunLeads(c, states, acts, m, n);
    AbandonedStays(c, states[m], acts[m..n], states[n], w, g, i);
    RunConserves(c, states, acts, n);
    HeldIsUnacked(states[n], w, g, i);
  }

  // --- Which pending entries can still be acknowledged --------------------

  // A live consumer with work whose entries are all on the stream.
  predicate Working(s: System, w: nat) {
    Busy(s, w) && forall i :: i in s.workers[w].batch ==> i < |s.stream|
  }

  // Past the dedup check, a live consumer can bring the head of its batch to acknowledgement.
  lemma HeadSettles(c: Config, s: System, w: nat) returns (acts: seq<Action>, t: System)
    requires Busy(s, w) && !s.workers[w].stage.Next?
    requires s.workers[w].stage.Running? ==> s.workers[w].stage.h <= HandlerCount(c, s, w)
    ensures Leads(c, s, acts, t) && t.stream == s.stream && t.acked == s.acked
    ensures |t.workers| == |s.workers| && t.workers[w].stage.Acking?
    ensures t.workers[w] == s.workers[w].(stage := t.workers[w].stage)
  {
    match s.workers[w].stage
    case Running(_, _, _) =>
      acts, t := AllReturn(c, s, w);
    case GivenUp(_) =>
      acts, t := [Bury(w)], After(c, s, Bury(w));
      LeadsByOne(c, s, Bury(w), [], t);
    case Acking(_) =>
      acts, t := [], s;
  }

  // So it can acknowledge that entry and move on to the rest.
  lemma HeadAcked(c: Config, s: System, w: nat) returns (acts: seq<Action>, t: System)
    requires Busy(s, w) && (s.workers[w].stage.Running? ==> s.workers[w].stage.h <= HandlerCount(c, s, w))
    ensures Leads(c, s, acts, t) && t.stream == s.stream && |t.workers| == |s.workers|
    ensures t.workers[w] == s.workers[w].(batch := s.workers[w].batch[1..], stage := Next)
    ensures |t.acked| == |s.acked| + 1 && t.acked[..|s.acked|] == s.acked
    ensures t.acked[|s.acked|].0 == s.workers[w].group && t.acked[|s.acked|].1 == s.workers[w].batch[0]
  {
    var first: seq<Action>, u := [], s;
    if s.workers[w].stage.Next? {
      first, u := [Dedup(w)], After(c, s, Dedup(w));
      LeadsByOne(c, s, Dedup(w), [], u);
    }
    var more, v := HeadSettles(c, u, w);
    LeadsOn(c, s, first, u, more, v);
    t := After(c, v, Action.Ack(w));
    LeadsByOne(c, v, Action.Ack(w), [], t);
    LeadsOn(c, s, first + more, v, [Action.Ack(w)], t);
    acts := first + more + [Action.Ack(w)];
  }

  lemma {:induction false} EntryAcked(c: Config, s: System, w: nat, i: nat) returns (acts: seq<Action>, t: System)
    requires Working(s, w) && i in s.workers[w].batch
    requires s.workers[w].stage.Running? ==> s.workers[w].stage.h <= HandlerCount(c, s, w)
    ensures Leads(c, s, acts, t) && 0 < Acks(t.acked, s.workers[w].group, i)
    decreases |s.workers[w].batch|
  {
    var first, u := HeadAcked(c, s, w);
    if s.workers[w].batch[0] == i {
      acts, t := first, u;
    } else {
      var batch := s.workers[w].batch;
      assert batch == [batch[0]] + batch[1..];
      assert forall j :: j in batch[1..] ==> j in batch;
      assert batch[1..][0] in batch[1..];
      var rest;
      rest, t := EntryAcked(c, u, w, i);
      LeadsOn(c, s, first, u, rest, t);
      acts := first + rest;
    }
  }

  ghost predicate AckedLater(c: Config, s: System, g: string, i: nat, acts: seq<Action>, t: System) {
    Leads(c, s, acts, t) && 0 < Acks(t.acked, g, i)
  }

  /** A pending entry is acknowledged in some continuation exactly when the
      consumer that holds it has not crashed. */
  lemma AcknowledgedIff(c: Config, states: seq<System>, acts: seq<Action>, n: nat, g: string, i: nat)
    requires 0 <= c.dedupTtl && Run(c, states, acts) && n < |states| && (g, i) in states[n].pending
    ensures var s := states[n];
            (exists more, t :: AckedLater(c, s, g, i, more, t))
            <==> exists w: nat :: Holds(s, w, g, i) && !s.workers[w].crashed
  {
    var s := states[n];
    RunInv(c, states, acts, n);
    RunConserves(c, states, acts, n);
    var w: nat :| Holds(s, w, g, i);
    assert WorkerOk(c, s, w);
    if s.workers[w].crashed {
      forall more, t | Leads(c, s, more, t)
        ensures !AckedLater(c, s, g, i, more, t)
      {
        AbandonedStays(c, s, more, t, w, g, i);
        ConservedOn(c, s, more, t);
        HeldIsUnacked(t, w, g, i);
      }
    } else {
      var more, t := EntryAcked(c, s, w, i);
      assert AckedLater(c, s, g, i, more, t);
    }
  }

  // --- One delivery for all groups ----------------------------------------

  lemma {:induction false} AcksAt(acked: seq<(string, nat, Reason)>, k: nat)
    requires k < |acked|
    ensures 0 < Acks(acked, acked[k].0, acked[k].1)
  {
    if k < |acked| - 1 {
      AcksAt(acked[..|acked| - 1], k);
    }
  }

  lemma {:induction false} AcksTwice(acked: seq<(string, nat, Reason)>, k: nat, l: nat)
    requires k < l < |acked| && acked[k].0 == acked[l].0 && acked[k].1 == acked[l].1
    ensures 2 <= Acks(acked, acked[k].0, acked[k].1)
  {
    if l < |acked| - 1 {
      AcksTwice(acked[..|acked| - 1], k, l);
    } else {
      AcksAt(acked[..|acked| - 1], k);
    }
  }

  /** Of the acknowledgements of one event, in whatever groups and for whatever
      copies, any two that are not merely `AlreadySeen` rest on different
      deliveries a whole key lifetime apart. */
  lemma GroupsShareOneDelivery(c: Config, states: seq<System>, acts: seq<Action>, n: nat, k: nat, l: nat)
    requires 0 <= c.dedupTtl && Run(c, states, acts) && n < |states| && k < l < |states[n].acked|
    requires !states[n].acked[k].2.AlreadySeen? && !states[n].acked[l].2.AlreadySeen?
    ensures var s := states[n];
            && s.acked[k].1 < |s.stream| && s.acked[l].1 < |s.stream|
            && (s.stream[s.acked[k].1] == s.stream[s.acked[l].1] ==>
                  var p, q := s.acked[k].2.pass, s.acked[l].2.pass;
                  && p < |s.passes| && q < |s.passes|
                  && (s.passes[p].at + c.dedupTtl <= s.passes[q].at || s.passes[q].at + c.dedupTtl <= s.passes[p].at))
  {
    var s := states[n];
    RunInv(c, states, acts, n);
    RunConserves(c, states, acts, n);
    assert Justified(c, s, s.acked[k].0, s.acked[k].1, s.acked[k].2);
    assert Justified(c, s, s.acked[l].0, s.acked[l].1, s.acked[l].2);
    if s.acked[k].2.pass == s.acked[l].2.pass {
      AcksTwice(s.acked, k, l);
    }
  }
}
