/** The negotiation envelope and the move function (`engines/negotiation`).
    The settlement fraction is the exact rational num / den. */
module Negotiation {
  import opened Common

  datatype Fraction = Fraction(num: int, den: int) {
    predicate Valid() { 0 < den }
  }

  datatype Envelope = Envelope(floor: int, ceiling: int, floorDay: int, ceilingDay: int, pct: Fraction)

  // math.ceil(n * num / den)
  function CeilScaled(n: int, f: Fraction): int
    requires f.Valid()
  {
    -((-(n * f.num)) / f.den)
  }

  // The model validators: Money is non-negative, the fraction in [0, 1], both ranges ordered.
  predicate Accepted(e: Envelope)
    requires e.pct.Valid()
  {
    0 <= e.floor <= e.ceiling && e.floorDay <= e.ceilingDay && 0 <= e.pct.num <= e.pct.den
  }

  function FromOutstanding(outstanding: int, pct: Fraction, maxExtensionDays: int, today: int): (r: Option<Envelope>)
    requires pct.Valid()
  {
    var e := Envelope(Max(1, CeilScaled(outstanding, pct)), outstanding, today, today + maxExtensionDays, pct);
    if Accepted(e) then Some(e) else None
  }

  // build_envelope: nothing outstanding gives the zero envelope.
  function BuildEnvelope(outstanding: Option<int>, pct: Fraction, maxExtensionDays: int, today: int): (r: Option<Envelope>)
    requires pct.Valid()
  {
    if outstanding.None? || outstanding.value == 0 then
      var e := Envelope(0, 0, today, today + maxExtensionDays, pct);
      if Accepted(e) then Some(e) else None
    else FromOutstanding(outstanding.value, pct, maxExtensionDays, today)
  }

  /** An envelope can be derived exactly when something is owed, the fraction
      lies in [0, 1] and the extension is not negative; its floor is then the
      least amount of at least one unit that covers the fraction. */
  lemma EnvelopeExistsIff(n: int, pct: Fraction, days: int, today: int)
    requires pct.Valid()
    ensures FromOutstanding(n, pct, days, today).Some? <==> 1 <= n && 0 <= pct.num <= pct.den && 0 <= days
    ensures var r := FromOutstanding(n, pct, days, today);
            r.Some? ==>
              && r.value.ceiling == n && 1 <= r.value.floor <= n && r.value.pct == pct
              && r.value.floorDay == today && r.value.ceilingDay == today + days
              && n * pct.num <= r.value.floor * pct.den
              && (1 < r.value.floor ==> (r.value.floor - 1) * pct.den < n * pct.num)
  {
    var x := n * pct.num;
    var c := CeilScaled(n, pct);
    CeilMeans(x, pct.den);
    if 1 <= n && 0 <= pct.num <= pct.den {
      ScaledAtMost(n, pct);
    }
  }

  lemma CeilMeans(x: int, den: int)
    requires 0 < den
    ensures x <= -((-x) / den) * den < x + den
  {
    assert -x == (-x) / den * den + (-x) % den;
  }

  lemma ScaleOrder(a: int, b: int, k: int)
    requires 0 <= k && a <= b
    ensures k * a <= k * b && a * k <= b * k
  {
    assert k * (b - a) >= 0;
  }

  lemma ScaledAtMost(n: int, pct: Fraction)
    requires pct.Valid() && 0 <= pct.num <= pct.den && 0 <= n
    ensures CeilScaled(n, pct) <= n
  {
    var c := CeilScaled(n, pct);
    var x := n * pct.num;
    CeilMeans(x, pct.den);
    ScaleOrder(pct.num, pct.den, n);
    if n + 1 <= c {
      ScaleOrder(n + 1, c, pct.den);
    }
  }

  datatype Move = ProposePtp | Accept | Counter | Decline | Offer

  datatype Outcome = Proposed(move: Move, amount: Option<int>) | BoundaryViolation(outside: int)

  // assert_within_envelope, then the result
  function Emit(e: Envelope, move: Move, amount: int): Outcome {
    if amount < e.floor || amount > e.ceiling then BoundaryViolation(amount) else Proposed(move, Some(amount))
  }

  const MAX_CONCESSIONS := 2

  function CounterAmount(e: Envelope, offer: int): int {
    var step := Max(0, (e.floor - offer) / (MAX_CONCESSIONS + 1));
    var counter := Max(offer, Min(offer + step, e.ceiling));
    if counter < e.floor then e.floor else counter
  }

  function ComputeMove(e: Envelope, offer: Option<int>, round: int, hardship: bool): Outcome {
    if hardship then Emit(e, ProposePtp, e.floor)
    else match offer
      case None => Emit(e, Offer, e.ceiling)
      case Some(o) =>
        if o >= e.floor then Emit(e, Accept, Min(o, e.ceiling))
        else if round < MAX_CONCESSIONS then Emit(e, Counter, CounterAmount(e, o))
        else Proposed(Decline, None)
  }

  /** Whatever the offer and the round, a valid envelope never raises, every
      proposal lies inside it, and the midpoint arithmetic of a counter-offer
      comes out as the floor itself. Hardship is met at the floor, the opening is
      the ceiling, and what is accepted is the offer as far as it is owed. */
  lemma MoveStaysInside(e: Envelope, offer: Option<int>, round: int, hardship: bool)
    requires e.floor <= e.ceiling
    ensures var r := ComputeMove(e, offer, round, hardship);
            && r.Proposed?
            && (r.amount.Some? ==> e.floor <= r.amount.value <= e.ceiling)
            && (r.amount.None? <==> r.move.Decline?)
            && (r.move.Counter? ==> r.amount == Some(e.floor))
            && (r.move.ProposePtp? <==> hardship) && (hardship ==> r.amount == Some(e.floor))
            && (r.move.Offer? <==> !hardship && offer.None?) && (r.move.Offer? ==> r.amount == Some(e.ceiling))
            && (r.move.Accept? <==> !hardship && offer.Some? && e.floor <= offer.value)
            && (r.move.Accept? ==> if e.ceiling < offer.value then r.amount == Some(e.ceiling) else r.amount == offer)
  {
    if offer.Some? && offer.value < e.floor {
      assert CounterAmount(e, offer.value) == e.floor by {
        assert (e.floor - offer.value) / 3 <= e.floor - offer.value;
      }
    }
  }

  /** An envelope is built exactly for a debt that is not negative, a fraction in
      [0, 1] and an extension that is not negative; with no debt it is the zero
      envelope. No move over it asks for more than is owed. */
  lemma BuiltEnvelopeBoundsMoves(outstanding: Option<int>, pct: Fraction, days: int, today: int,
                                 offer: Option<int>, round: int, hardship: bool)
    requires pct.Valid()
    ensures var owed := if outstanding.Some? then outstanding.value else 0;
            var r := BuildEnvelope(outstanding, pct, days, today);
            && (r.Some? <==> 0 <= owed && 0 <= pct.num <= pct.den && 0 <= days)
            && (r.Some? ==>
                  var m := ComputeMove(r.value, offer, round, hardship);
                  && (owed == 0 <==> r.value.floor == 0) && r.value.ceiling == owed
                  && r.value.floorDay == today && r.value.ceilingDay == today + days
                  && m.Proposed? && (m.amount.Some? ==> r.value.floor <= m.amount.value <= owed))
  {
    var owed := if outstanding.Some? then outstanding.value else 0;
    EnvelopeExistsIff(owed, pct, days, today);
    var r := BuildEnvelope(outstanding, pct, days, today);
    if r.Some? {
      MoveStaysInside(r.value, offer, round, hardship);
    }
  }

  // Concession rounds as a negotiation counts them: never the same twice.
  predicate Rising(rounds: seq<int>) {
    && (rounds != [] ==> 0 <= rounds[0])
    && forall i :: 0 < i < |rounds| ==> rounds[i - 1] < rounds[i]
  }

  lemma {:induction false} RoundAtLeast(rounds: seq<int>, i: nat)
    requires Rising(rounds) && i < |rounds|
    ensures i <= rounds[i]
  {
    if i > 0 {
      RoundAtLeast(rounds, i - 1);
    }
  }

  /** Below-floor offers in rising rounds are countered at the floor in rounds 0
      and 1 and declined in all others, so from the third offer on, at the
      latest, every answer is a decline. */
  lemma TwoCountersThenDecline(e: Envelope, offers: seq<int>, rounds: seq<int>, i: nat)
    requires e.floor <= e.ceiling && |offers| == |rounds| && Rising(rounds)
    requires i < |offers| && offers[i] < e.floor
    ensures ComputeMove(e, Some(offers[i]), rounds[i], false) ==
            if rounds[i] < 2 then Proposed(Counter, Some(e.floor)) else Proposed(Decline, None)
    ensures 2 <= i ==> ComputeMove(e, Some(offers[i]), rounds[i], false) == Proposed(Decline, None)
  {
    RoundAtLeast(rounds, i);
    MoveStaysInside(e, Some(offers[i]), rounds[i], false);
  }
}
