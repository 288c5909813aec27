/** Two agents negotiate within private mandates, in at most five turns of rounded concessions. */
module Negotiation {
  import opened Reals
  import opened Wrappers

  const MAX_TURNS := 5

  /** Commission wanted and its absolute limit, duration wanted and its minimum, volume, and exclusivity. */
  datatype Mandate = Mandate(
    commissionWanted: real, commissionLimit: real, durationWanted: int, durationFloor: int, volumeMin: int,
    exclusivityWanted: bool)

  datatype Offer = Offer(commission: real, duration: int, volume: int, exclusive: bool)

  datatype Verdict = Accepted(offer: Offer) | Broken | Countered(offer: Offer)

  /**
    Floating point, where the outcome depends on it: a commission moved towards a limit by one of so many
    equal steps and rounded to one decimal, and the difference of two commissions.
  */
  datatype Arithmetic = Arithmetic(concede: (real, real, int) -> real, minus: (real, real) -> real) {
    /** Rounding moves by half a tenth at most, and floating point by far less than a thousandth. */
    ghost predicate Near() {
      && (forall c, limit, n :: n >= 1 ==> -0.051 <= concede(c, limit, n) - Step(c, limit, n) <= 0.051)
      && (forall a, b :: -0.001 <= minus(a, b) - (a - b) <= 0.001)
    }
  }

  function Step(c: real, limit: real, n: int): real
    requires n >= 1
  {
    c + (limit - c) / n as real
  }

  function TurnsLeft(turn: int): (n: int)
    ensures n >= 1
  {
    if MAX_TURNS - turn > 1 then MAX_TURNS - turn else 1
  }

  /** A step towards one's own limit, which the rounded result does not pass. */
  function Proposed(f: Arithmetic, m: Mandate, commission: real, turn: int, producer: bool): real {
    var proposed := f.concede(commission, m.commissionLimit, TurnsLeft(turn));
    if producer then Min(proposed, m.commissionLimit) else Max(proposed, m.commissionLimit)
  }

  /** A move too small to be made. */
  predicate Frozen(f: Arithmetic, proposed: real, commission: real) {
    -0.2 < f.minus(proposed, commission) < 0.2
  }

  function Evaluate(f: Arithmetic, m: Mandate, offer: Offer, turn: int, producer: bool): Verdict {
    var acceptable := if producer then offer.commission >= m.commissionLimit else offer.commission <= m.commissionLimit;
    if producer && offer.exclusive && offer.volume < m.volumeMin then Countered(offer.(exclusive := false))
    else if offer.duration < m.durationFloor then Broken
    else if acceptable then Accepted(offer)
    else
      var proposed := Proposed(f, m, offer.commission, turn, producer);
      if Frozen(f, proposed, offer.commission) then Broken else Countered(offer.(commission := proposed))
  }

  function Opening(d: Mandate): Offer {
    Offer(d.commissionWanted, d.durationWanted, d.volumeMin, d.exclusivityWanted)
  }

  /** How one turn ends: a deal, no deal, or the next proposal of the distributor. */
  datatype Turn = Deal(offer: Offer) | NoDeal | Next(offer: Offer)

  function TurnOf(f: Arithmetic, d: Mandate, p: Mandate, offer: Offer, turn: int): Turn {
    match Evaluate(f, p, offer, turn, true)
    case Accepted(o) => Deal(o)
    case Broken => NoDeal
    case Countered(counter) =>
      match Evaluate(f, d, counter, turn, false)
      case Broken => NoDeal
      case Accepted(_) => Next(counter)
      case Countered(ours) => Next(ours)
  }

  /** The deal reached from this proposal on, if there is one. */
  function Outcome(f: Arithmetic, d: Mandate, p: Mandate, offer: Offer, turn: int): Option<Offer>
    decreases MAX_TURNS - turn
  {
    if turn > MAX_TURNS then None
    else match TurnOf(f, d, p, offer, turn)
      case Deal(o) => Some(o)
      case NoDeal => None
      case Next(o) => Outcome(f, d, p, o, turn + 1)
  }

  method Negotiate(f: Arithmetic, d: Mandate, p: Mandate) returns (deal: Option<Offer>, turns: int)
    ensures deal == Outcome(f, d, p, Opening(d), 1)
    ensures 1 <= turns <= MAX_TURNS
  {
    hide Evaluate;
    var offer := Opening(d);
    for turn := 1 to MAX_TURNS + 1
      invariant Outcome(f, d, p, Opening(d), 1) == Outcome(f, d, p, offer, turn)
    {
      var answer := Evaluate(f, p, offer, turn, true);
      if answer.Accepted? {
        return Some(answer.offer), turn;
      }
      if answer.Broken? {
        return None, turn;
      }
      var counter := answer.offer;
      var ours := Evaluate(f, d, counter, turn, false);
      if ours.Broken? {
        return None, turn;
      }
      if ours.Accepted? {
        offer := counter;
        continue;
      }
      offer := ours.offer;
    }
    return None, MAX_TURNS;
  }

  // ---------------------------------------------------------------- what a deal keeps

  predicate HonoursProducer(o: Offer, p: Mandate) {
    o.commission >= p.commissionLimit && o.duration >= p.durationFloor && (o.exclusive ==> o.volume >= p.volumeMin)
  }

  predicate HonoursDistributor(o: Offer, d: Mandate) {
    o.commission <= d.commissionLimit && o.duration >= d.durationFloor
  }

  /** What a distributor asks for at first lies within its own limits. */
  predicate Coherent(d: Mandate) {
    d.commissionWanted <= d.commissionLimit && d.durationWanted >= d.durationFloor
  }

  /**
    What holds of every proposal of the distributor. It may pass its own ceiling, but then it stays below
    the floor of the producer, so it cannot be accepted.
  */
  predicate Guarded(o: Offer, d: Mandate, p: Mandate) {
    && (o.commission <= d.commissionLimit || o.commission < p.commissionLimit)
    && o.duration == d.durationWanted && o.volume == d.volumeMin && (o.exclusive ==> d.exclusivityWanted)
  }

  /** The producer moves towards its floor and stops there. */
  lemma {:induction false} ProducerCounter(f: Arithmetic, p: Mandate, offer: Offer, turn: int)
    requires Evaluate(f, p, offer, turn, true).Countered?
    ensures var c := Evaluate(f, p, offer, turn, true).offer;
      && c.(commission := offer.commission, exclusive := offer.exclusive) == offer && (c.exclusive ==> offer.exclusive)
      && (c.commission <= p.commissionLimit || c.commission == offer.commission)
  {
    hide Arithmetic.Near;
  }

  /** Where the distributor concedes, it comes down: rounding moves by less than the smallest step it accepts. */
  lemma {:induction false} DistributorCounter(f: Arithmetic, d: Mandate, counter: Offer, turn: int)
    requires f.Near() && Evaluate(f, d, counter, turn, false).Countered?
    ensures var o := Evaluate(f, d, counter, turn, false).offer;
      && o == counter.(commission := o.commission)
      && d.commissionLimit <= o.commission <= counter.commission - 0.199
  {
    var c, limit, n := counter.commission, d.commissionLimit, TurnsLeft(turn);
    assert (limit - c) / n as real <= 0.0;
    assert f.concede(c, limit, n) - Step(c, limit, n) <= 0.051;
    var o := Proposed(f, d, c, turn, false);
    assert -0.001 <= f.minus(o, c) - (o - c) <= 0.001;
  }

  lemma {:induction false} TurnKeepsGuard(f: Arithmetic, d: Mandate, p: Mandate, offer: Offer, turn: int)
    requires f.Near() && Guarded(offer, d, p) && TurnOf(f, d, p, offer, turn).Next?
    ensures Guarded(TurnOf(f, d, p, offer, turn).offer, d, p)
  {
    hide Proposed, Arithmetic.Near;
    var counter := Evaluate(f, p, offer, turn, true).offer;
    ProducerCounter(f, p, offer, turn);
    if Evaluate(f, d, counter, turn, false).Countered? {
      DistributorCounter(f, d, counter, turn);
    }
  }

  lemma {:induction false} GuardedOutcome(f: Arithmetic, d: Mandate, p: Mandate, offer: Offer, turn: int)
    requires f.Near() && Guarded(offer, d, p) && Outcome(f, d, p, offer, turn).Some?
    ensures var deal := Outcome(f, d, p, offer, turn).value;
      Guarded(deal, d, p) && HonoursProducer(deal, p)
    decreases MAX_TURNS - turn
  {
    hide Proposed, Arithmetic.Near;
    var t := TurnOf(f, d, p, offer, turn);
    if t.Next? {
      TurnKeepsGuard(f, d, p, offer, turn);
      GuardedOutcome(f, d, p, t.offer, turn + 1);
    }
  }

  /**
    A concluded deal honours both mandates: the commission lies between the floor of one and the ceiling of
    the other, the duration above both minima, and there is no exclusivity below the producer's volume.
    It keeps the duration and volume the distributor opened with.
  */
  lemma {:induction false} DealHonoursBoth(f: Arithmetic, d: Mandate, p: Mandate)
    requires f.Near() && Coherent(d) && Outcome(f, d, p, Opening(d), 1).Some?
    ensures var deal := Outcome(f, d, p, Opening(d), 1).value;
      && HonoursProducer(deal, p) && HonoursDistributor(deal, d)
      && deal.duration == d.durationWanted && deal.volume == d.volumeMin && (deal.exclusive ==> d.exclusivityWanted)
  {
    hide Outcome, Arithmetic.Near;
    GuardedOutcome(f, d, p, Opening(d), 1);
  }

  /** Incompatible mandates never sign. */
  lemma {:induction false} NoDealWhenIncompatible(f: Arithmetic, d: Mandate, p: Mandate)
    requires f.Near() && Coherent(d)
    requires p.commissionLimit > d.commissionLimit || d.durationWanted < p.durationFloor
    ensures Outcome(f, d, p, Opening(d), 1) == None
  {
    hide Outcome, Arithmetic.Near;
    if Outcome(f, d, p, Opening(d), 1).Some? {
      DealHonoursBoth(f, d, p);
    }
  }

  ghost predicate SafeWith(f: Arithmetic, d: Mandate, p: Mandate) {
    Outcome(f, d, p, Opening(d), 1).Some? ==> HonoursDistributor(Outcome(f, d, p, Opening(d), 1).value, d)
  }

  /**
    The distributor is safe with every producer exactly when what it wants lies within its own limits: its
    opening is never checked against them.
  */
  lemma {:induction false} SafeIffCoherent(f: Arithmetic, d: Mandate)
    requires f.Near()
    ensures (forall p :: SafeWith(f, d, p)) <==> Coherent(d)
  {
    if Coherent(d) {
      forall p
        ensures SafeWith(f, d, p)
      {
        if Outcome(f, d, p, Opening(d), 1).Some? {
          DealHonoursBoth(f, d, p);
        }
      }
    } else {
      var eager := Mandate(d.commissionWanted, d.commissionWanted, d.durationWanted, d.durationWanted, d.volumeMin,
                           false);
      assert TurnOf(f, d, eager, Opening(d), 1) == Deal(Opening(d));
      assert !SafeWith(f, d, eager);
    }
  }

  /**
    When a concession passes the ceiling of the distributor that makes it: always while turns remain for
    further steps, and on the last two turns exactly when the ceiling itself is rounded upward.
  */
  lemma {:induction false} ConcessionPassesCeilingIff(f: Arithmetic, d: Mandate, counter: Offer, turn: int)
    requires f.Near() && 1 <= turn <= MAX_TURNS && Evaluate(f, d, counter, turn, false).Countered?
    ensures Evaluate(f, d, counter, turn, false).offer.commission > d.commissionLimit <==>
      turn <= 3 || f.concede(counter.commission, d.commissionLimit, 1) > d.commissionLimit
  {
    var c, limit, n := counter.commission, d.commissionLimit, TurnsLeft(turn);
    DistributorCounter(f, d, counter, turn);
    if turn <= 3 {
      assert f.concede(c, limit, n) - Step(c, limit, n) >= -0.051;
      Halved(c - limit, n as real);
      assert Step(c, limit, n) - limit == (c - limit) - (c - limit) / n as real by { Opposite(c, limit, n as real); }
    }
  }

  lemma Halved(gap: real, n: real)
    requires gap >= 0.0 && n >= 2.0
    ensures gap / n <= gap / 2.0
  {
  }

  lemma Opposite(c: real, limit: real, n: real)
    requires n > 0.0
    ensures (limit - c) / n == 0.0 - (c - limit) / n
  {
  }

  /** Such proposals are made: wanting 12 and never more than 14, against a floor of 30. */
  lemma {:induction false} ProposalsPassOwnCeiling(f: Arithmetic)
    requires f.Near()
    ensures var d, p := Mandate(12.0, 14.0, 36, 24, 300, false), Mandate(40.0, 30.0, 24, 24, 400, false);
      var t := TurnOf(f, d, p, Opening(d), 1);
      t.Next? && t.offer.commission > d.commissionLimit
  {
    var d, p := Mandate(12.0, 14.0, 36, 24, 300, false), Mandate(40.0, 30.0, 24, 24, 400, false);
    assert Step(12.0, 30.0, 4) == 16.5;
    var c := f.concede(12.0, 30.0, 4);
    assert 16.449 <= c <= 16.551;
    assert f.minus(c, 12.0) >= c - 12.0 - 0.001;
    var ours := f.concede(c, 14.0, 4);
    assert -0.051 <= ours - Step(c, 14.0, 4) <= 0.051;
    assert f.minus(ours, c) <= ours - c + 0.001;
  }
}
