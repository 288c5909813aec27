/**
  When two compatible mandates reach a deal within the five turns: the exact condition, and when the gap
  alone decides.
*/
module Concessions {
  import opened Reals
  import opened Wrappers
  import opened Negotiation

  /** There is a deal that both mandates allow, on the duration the distributor asks for. */
  predicate Compatible(d: Mandate, p: Mandate) {
    Coherent(d) && p.commissionLimit <= d.commissionLimit && d.durationWanted >= p.durationFloor
  }

  /** The distributor asks for an exclusivity that its volume does not allow; a turn goes by to drop it. */
  predicate Clash(d: Mandate, p: Mandate) {
    d.exclusivityWanted && d.volumeMin < p.volumeMin
  }

  /** Concessions left to the producer when it first concedes. */
  function Steps(d: Mandate, p: Mandate): (n: int)
    ensures 3 <= n <= 4
  {
    if Clash(d, p) then 3 else 4
  }

  function Gap(d: Mandate, p: Mandate): real {
    p.commissionLimit - d.commissionWanted
  }

  /** The producer's proposals from a commission to its floor, as rounding alone makes them. */
  function Path(f: Arithmetic, floor: real, c: real, n: nat): (path: seq<real>)
    ensures path != [] && path[0] == c
    decreases n
  {
    if c >= floor || n == 0 then [c] else [c] + Path(f, floor, Conceded(f, floor, c, n), n - 1)
  }

  function Conceded(f: Arithmetic, floor: real, c: real, n: int): real {
    Min(f.concede(c, floor, n), floor)
  }

  /** The path ends at the floor, and no step of it is too small. */
  predicate Walkable(f: Arithmetic, floor: real, path: seq<real>)
    requires path != []
  {
    if |path| == 1 then path[0] >= floor else !Frozen(f, path[1], path[0]) && Walkable(f, floor, path[1..])
  }

  /** The path of the producer when it first concedes. */
  function FullPath(f: Arithmetic, d: Mandate, p: Mandate): (path: seq<real>)
    ensures path != []
  {
    Path(f, p.commissionLimit, d.commissionWanted, Steps(d, p))
  }

  // ---------------------------------------------------------------- one turn

  /** Nothing but the commission stands between this offer and a deal. */
  predicate Open(o: Offer, d: Mandate, p: Mandate) {
    Compatible(d, p) && o.duration == d.durationWanted && !(o.exclusive && o.volume < p.volumeMin)
  }

  lemma {:induction false} AtFloor(f: Arithmetic, d: Mandate, p: Mandate, o: Offer, turn: int)
    requires Open(o, d, p) && o.commission >= p.commissionLimit && turn <= MAX_TURNS
    ensures Outcome(f, d, p, o, turn) == Some(o)
  {
    hide Proposed, Frozen;
  }

  /** Below its floor the producer makes a step, which the distributor takes, or breaks off. */
  lemma {:induction false} ConcedeTurn(f: Arithmetic, d: Mandate, p: Mandate, o: Offer, turn: int, c: real)
    requires Open(o, d, p) && o.commission < p.commissionLimit && turn <= MAX_TURNS
    requires c == Proposed(f, p, o.commission, turn, true) && c <= p.commissionLimit
    ensures Outcome(f, d, p, o, turn) ==
      if Frozen(f, c, o.commission) then None else Outcome(f, d, p, o.(commission := c), turn + 1)
  {
    hide Proposed, Frozen;
  }

  lemma {:induction false} WalkableStep(f: Arithmetic, floor: real, c: real, n: nat)
    requires c < floor && n > 0
    ensures var next := Conceded(f, floor, c, n);
      Walkable(f, floor, Path(f, floor, c, n)) <==>
        !Frozen(f, next, c) && Walkable(f, floor, Path(f, floor, next, n - 1))
  {
    hide Frozen, Conceded;
    var rest := Path(f, floor, Conceded(f, floor, c, n), n - 1);
    assert Path(f, floor, c, n) == [c] + rest && ([c] + rest)[1..] == rest;
  }

  lemma {:induction false} PathDecides(f: Arithmetic, d: Mandate, p: Mandate, o: Offer, n: nat)
    requires Open(o, d, p) && n < MAX_TURNS
    ensures Outcome(f, d, p, o, MAX_TURNS - n).Some? <==>
      Walkable(f, p.commissionLimit, Path(f, p.commissionLimit, o.commission, n))
    ensures Outcome(f, d, p, o, MAX_TURNS - n).Some? ==>
      Outcome(f, d, p, o, MAX_TURNS - n).value == o.(commission := Max(o.commission, p.commissionLimit))
    decreases n
  {
    hide Outcome, Frozen;
    var floor, turn := p.commissionLimit, MAX_TURNS - n;
    if o.commission >= floor {
      AtFloor(f, d, p, o, turn);
    } else {
      var c := Proposed(f, p, o.commission, turn, true);
      ConcedeTurn(f, d, p, o, turn, c);
      if n == 0 {
        TooLate(f, d, p, o.(commission := c));
      } else {
        WalkableStep(f, floor, o.commission, n);
        PathDecides(f, d, p, o.(commission := c), n - 1);
      }
    }
  }

  lemma TooLate(f: Arithmetic, d: Mandate, p: Mandate, o: Offer)
    ensures Outcome(f, d, p, o, MAX_TURNS + 1) == None
  {
  }

  /** The opening, or what is left of it once the exclusivity is dropped. */
  lemma {:induction false} AfterClash(f: Arithmetic, d: Mandate, p: Mandate)
    requires Compatible(d, p)
    ensures var o := if Clash(d, p) then Opening(d).(exclusive := false) else Opening(d);
      && Open(o, d, p) && o.commission == d.commissionWanted
      && Outcome(f, d, p, Opening(d), 1) == Outcome(f, d, p, o, MAX_TURNS - Steps(d, p))
  {
    hide Proposed, Frozen;
    if Clash(d, p) {
      assert TurnOf(f, d, p, Opening(d), 1) == Next(Opening(d).(exclusive := false));
    }
  }

  /**
    Compatible mandates conclude if and only if the producer can walk from the distributor's wish to its own
    floor: rounding alone gives its proposals, four of them or three once an exclusivity is dropped, and
    they must end at the floor with no step that the arithmetic finds smaller than 0.2. The deal is then at
    that floor, or at the wish where it is above, with everything else as the distributor opened, save an
    exclusivity that was dropped.
  */
  lemma {:induction false} ConcludesIff(f: Arithmetic, d: Mandate, p: Mandate)
    requires Compatible(d, p)
    ensures Outcome(f, d, p, Opening(d), 1).Some? <==> Walkable(f, p.commissionLimit, FullPath(f, d, p))
    ensures Outcome(f, d, p, Opening(d), 1).Some? ==>
      Outcome(f, d, p, Opening(d), 1).value ==
        Offer(Max(d.commissionWanted, p.commissionLimit), d.durationWanted, d.volumeMin,
              d.exclusivityWanted && d.volumeMin >= p.volumeMin)
  {
    hide Outcome, Walkable, Path;
    AfterClash(f, d, p);
    PathDecides(f, d, p, if Clash(d, p) then Opening(d).(exclusive := false) else Opening(d), Steps(d, p));
  }

  // ---------------------------------------------------------------- any rounding

  /** The last step ends at the floor, from wherever it starts. */
  ghost predicate Reaches(f: Arithmetic, floor: real) {
    forall c :: f.concede(c, floor, 1) >= floor
  }

  lemma {:induction false} ConcededNear(f: Arithmetic, floor: real, c: real, n: int)
    requires f.Near() && c < floor && 1 <= n < MAX_TURNS
    ensures var next := Conceded(f, floor, c, n);
      && next <= floor && next <= Step(c, floor, n) + 0.051
      && (next == floor || next >= Step(c, floor, n) - 0.051)
      && (Frozen(f, next, c) ==> next - c <= 0.201)
      && (!Frozen(f, next, c) ==> next - c >= 0.199)
  {
    var next := Conceded(f, floor, c, n);
    assert -0.051 <= f.concede(c, floor, n) - Step(c, floor, n) <= 0.051;
    assert -0.001 <= f.minus(next, c) - (next - c) <= 0.001;
    assert (floor - c) / n as real >= 0.0;
  }

  /** The floor is not reached before the last step, save by a step too small to be made. */
  lemma {:induction false} NeedsSteps(f: Arithmetic, floor: real, c: real, n: nat)
    requires f.Near() && c < floor && n < MAX_TURNS && Walkable(f, floor, Path(f, floor, c, n))
    ensures n >= 1 && floor - c >= 0.199 * n as real
    decreases n
  {
    hide Walkable, Path, Frozen, Conceded, Step, Arithmetic.Near;
    assert n >= 1 by { NoStepLeft(f, floor, c); }
    WalkableStep(f, floor, c, n);
    ConcededNear(f, floor, c, n);
    var next := Conceded(f, floor, c, n);
    if next < floor {
      NeedsSteps(f, floor, next, n - 1);
    } else if n > 1 {
      Quarter(c, floor, n);
    }
  }

  lemma NoStepLeft(f: Arithmetic, floor: real, c: real)
    requires c < floor
    ensures !Walkable(f, floor, Path(f, floor, c, 0))
  {
  }

  lemma Quarter(c: real, floor: real, n: int)
    requires c < floor && 2 <= n <= 4 && floor <= Step(c, floor, n) + 0.051
    ensures floor - c < 0.199
  {
    var gap := floor - c;
    if n == 2 {
      assert gap / 2.0 <= 0.051;
    } else if n == 3 {
      assert gap - gap / 3.0 <= 0.051;
    } else {
      assert gap - gap / 4.0 <= 0.051;
    }
  }

  /** What is enough to walk with so many steps left. */
  function Enough(n: int): real {
    if n == 1 then 0.201 else if n == 2 then 0.505 else if n == 3 then 0.84 else 1.2
  }

  lemma {:induction false} WideEnough(f: Arithmetic, floor: real, c: real, n: nat)
    requires f.Near() && Reaches(f, floor) && 1 <= n < MAX_TURNS && floor - c >= Enough(n)
    ensures Walkable(f, floor, Path(f, floor, c, n))
    decreases n
  {
    hide Walkable, Path, Frozen, Conceded, Step, Arithmetic.Near, Reaches;
    WalkableStep(f, floor, c, n);
    ConcededNear(f, floor, c, n);
    var next := Conceded(f, floor, c, n);
    if n == 1 {
      LastStep(f, floor, c);
    } else {
      WideStep(c, floor, n, next);
      WideEnough(f, floor, next, n - 1);
    }
  }

  lemma LastStep(f: Arithmetic, floor: real, c: real)
    requires Reaches(f, floor) && floor - c >= 0.201 && f.Near()
    ensures Conceded(f, floor, c, 1) == floor && !Frozen(f, floor, c)
    ensures Walkable(f, floor, Path(f, floor, floor, 0))
  {
    assert f.concede(c, floor, 1) >= floor;
    assert -0.001 <= f.minus(floor, c) - (floor - c) <= 0.001;
  }

  lemma WideStep(c: real, floor: real, n: int, next: real)
    requires 2 <= n <= 4 && floor - c >= Enough(n) && next <= floor
    requires next <= Step(c, floor, n) + 0.051 && (next == floor || next >= Step(c, floor, n) - 0.051)
    ensures next - c > 0.201 && floor - next >= Enough(n - 1)
  {
    var gap := floor - c;
    if n == 2 {
      assert Step(c, floor, n) == c + gap / 2.0;
    } else if n == 3 {
      assert Step(c, floor, n) == c + gap / 3.0;
    } else {
      assert Step(c, floor, n) == c + gap / 4.0;
    }
  }

  /**
    Whatever the rounding and the errors of floating point, compatible mandates part over a positive gap
    below 0.199 a step, and meet when there is no gap, or one of at least 0.3 a step below a floor that
    rounding reaches.
  */
  lemma {:induction false} AnyRoundingBounds(f: Arithmetic, d: Mandate, p: Mandate)
    requires f.Near() && Compatible(d, p)
    ensures 0.0 < Gap(d, p) < 0.199 * Steps(d, p) as real ==> Outcome(f, d, p, Opening(d), 1) == None
    ensures Gap(d, p) <= 0.0 ==> Outcome(f, d, p, Opening(d), 1).Some?
    ensures Gap(d, p) >= 0.3 * Steps(d, p) as real && Reaches(f, p.commissionLimit) ==>
      Outcome(f, d, p, Opening(d), 1).Some?
  {
    hide Outcome, Walkable, Arithmetic.Near, Reaches, Coherent, Opening;
    ConcludesIff(f, d, p);
    var floor, c, n := p.commissionLimit, d.commissionWanted, Steps(d, p);
    if Gap(d, p) <= 0.0 {
      Arrived(f, floor, c, n);
    } else if Walkable(f, floor, FullPath(f, d, p)) {
      NeedsSteps(f, floor, c, n);
    }
    if Gap(d, p) >= 0.3 * n as real && Reaches(f, floor) {
      WideEnough(f, floor, c, n);
    }
  }

  lemma Arrived(f: Arithmetic, floor: real, c: real, n: nat)
    requires c >= floor
    ensures Path(f, floor, c, n) == [c] && Walkable(f, floor, [c])
  {
  }

  // ---------------------------------------------------------------- mandates in whole tenths

  predicate OnGrid(x: real) {
    (10.0 * x).Floor as real == 10.0 * x
  }

  /** Proposals are whole tenths. */
  ghost predicate Tenths(f: Arithmetic) {
    forall c, limit, n :: n >= 1 ==> OnGrid(f.concede(c, limit, n))
  }

  /** The arithmetic does not find the steps of two tenths too small. */
  predicate TwoTenthsPass(f: Arithmetic, path: seq<real>) {
    |path| > 1 ==> (path[1] - path[0] == 0.2 ==> f.minus(path[1], path[0]) >= 0.2) && TwoTenthsPass(f, path[1..])
  }

  lemma {:induction false} PassStep(f: Arithmetic, floor: real, c: real, n: nat)
    requires c < floor && n > 0
    ensures var next := Conceded(f, floor, c, n);
      TwoTenthsPass(f, Path(f, floor, c, n)) <==>
        (next - c == 0.2 ==> f.minus(next, c) >= 0.2) && TwoTenthsPass(f, Path(f, floor, next, n - 1))
  {
    hide Conceded;
    var rest := Path(f, floor, Conceded(f, floor, c, n), n - 1);
    assert Path(f, floor, c, n) == [c] + rest && ([c] + rest)[1..] == rest;
  }

  /** A step on the grid, in tenths. */
  lemma {:induction false} GridMove(f: Arithmetic, floor: real, c: real, n: int) returns (i: int, j: int)
    requires f.Near() && Tenths(f) && OnGrid(c) && OnGrid(floor) && c < floor && 1 <= n < MAX_TURNS
    ensures var next := Conceded(f, floor, c, n);
      && OnGrid(next) && floor - c == i as real / 10.0 && next - c == j as real / 10.0
      && 0 <= j <= i && (n == 1 ==> j == i)
      && (i >= 2 * n ==> j >= 2 && i - j >= 2 * (n - 1))
      && (Frozen(f, next, c) <==> j < 2 || (j == 2 && f.minus(next, c) < 0.2))
  {
    var next := Conceded(f, floor, c, n);
    assert OnGrid(f.concede(c, floor, n));
    i, j := (10.0 * floor).Floor - (10.0 * c).Floor, (10.0 * next).Floor - (10.0 * c).Floor;
    var free := (10.0 * f.concede(c, floor, n)).Floor - (10.0 * c).Floor;
    assert -0.051 <= f.concede(c, floor, n) - Step(c, floor, n) <= 0.051;
    InTenths(c, floor, n, i);
    assert -0.51 <= free as real - i as real / n as real <= 0.51;
    assert j == if free <= i then free else i;
    WholeSteps(i, n, free);
    assert -0.001 <= f.minus(next, c) - (next - c) <= 0.001;
  }

  lemma InTenths(c: real, floor: real, n: int, i: int)
    requires 1 <= n <= 4 && floor - c == i as real / 10.0
    ensures 10.0 * (Step(c, floor, n) - c) == i as real / n as real
  {
  }

  lemma WholeSteps(i: int, n: int, free: int)
    requires 1 <= n <= 4 && i >= 1 && -0.51 <= free as real - i as real / n as real <= 0.51
    ensures free >= 0 && (n == 1 ==> free == i)
    ensures i >= 2 * n ==> 2 <= free <= i && i - free >= 2 * (n - 1)
  {
    if n == 1 {
      assert i as real / 1.0 == i as real;
    } else if n == 2 {
      assert 2 * free <= i + 1 && 2 * free >= i - 1;
    } else if n == 3 {
      assert 3 * free <= i + 1 && 3 * free >= i - 1;
    } else {
      assert 4 * free <= i + 2 && 4 * free >= i - 2;
    }
  }

  lemma {:induction false} GridPath(f: Arithmetic, floor: real, c: real, n: nat)
    requires f.Near() && Tenths(f) && OnGrid(c) && OnGrid(floor) && c < floor && 1 <= n < MAX_TURNS
    ensures var path := Path(f, floor, c, n);
      Walkable(f, floor, path) <==> floor - c >= 0.2 * n as real && TwoTenthsPass(f, path)
    decreases n
  {
    hide Walkable, Path, Frozen, Conceded, OnGrid, Tenths, Arithmetic.Near, TwoTenthsPass;
    var next := Conceded(f, floor, c, n);
    var i, j := GridMove(f, floor, c, n);
    WalkableStep(f, floor, c, n);
    PassStep(f, floor, c, n);
    if i < 2 * n {
      if Walkable(f, floor, Path(f, floor, c, n)) {
        NeedsSteps(f, floor, c, n);
      }
    } else if n > 1 {
      GridPath(f, floor, next, n - 1);
    } else {
      Arrived(f, floor, next, 0);
      NothingToPass(f, floor);
    }
  }

  lemma NothingToPass(f: Arithmetic, c: real)
    ensures TwoTenthsPass(f, [c])
  {
  }

  /**
    Between mandates in whole tenths the gap decides, down to the steps of exactly two tenths: with at least
    two tenths a step, a deal is reached if and only if the floating-point comparison with 0.2 lets each of
    those through.
  */
  lemma {:induction false} GapDecides(f: Arithmetic, d: Mandate, p: Mandate)
    requires f.Near() && Tenths(f) && Compatible(d, p) && OnGrid(d.commissionWanted) && OnGrid(p.commissionLimit)
    ensures Outcome(f, d, p, Opening(d), 1).Some? <==>
      Gap(d, p) <= 0.0 || (Gap(d, p) >= 0.2 * Steps(d, p) as real && TwoTenthsPass(f, FullPath(f, d, p)))
  {
    hide Outcome, Walkable, Arithmetic.Near, Tenths, OnGrid, TwoTenthsPass, Coherent, Opening;
    ConcludesIff(f, d, p);
    var floor, c, n := p.commissionLimit, d.commissionWanted, Steps(d, p);
    if Gap(d, p) <= 0.0 {
      Arrived(f, floor, c, n);
    } else {
      GridPath(f, floor, c, n);
    }
  }

  /** With at least two tenths a step and less than three, some step is of exactly two tenths. */
  lemma {:induction false} BandStep(f: Arithmetic, floor: real, c: real, n: nat) returns (a: real, b: real)
    requires f.Near() && Tenths(f) && OnGrid(c) && OnGrid(floor) && 1 <= n < MAX_TURNS
    requires 0.2 * n as real <= floor - c < 0.3 * n as real
    ensures a - b == 0.2 && (TwoTenthsPass(f, Path(f, floor, c, n)) ==> f.minus(a, b) >= 0.2)
    decreases n
  {
    hide Frozen, Conceded, OnGrid, Tenths, Arithmetic.Near, Path, TwoTenthsPass;
    var next := Conceded(f, floor, c, n);
    var i, j := GridMove(f, floor, c, n);
    PassStep(f, floor, c, n);
    if j == 2 {
      a, b := next, c;
    } else {
      a, b := BandStep(f, floor, next, n - 1);
    }
  }

  lemma {:induction false} AllPass(f: Arithmetic, path: seq<real>)
    requires forall a, b :: a - b == 0.2 ==> f.minus(a, b) >= 0.2
    ensures TwoTenthsPass(f, path)
  {
    if |path| > 1 {
      AllPass(f, path[1..]);
    }
  }

  /**
    So between two tenths a step and three, the comparison in floating point always decides: if it finds
    every difference of two tenths too small, mandates in that band part, and if it finds none, they meet.
  */
  lemma {:induction false} FloatsDecideBand(f: Arithmetic, d: Mandate, p: Mandate)
    requires f.Near() && Tenths(f) && Compatible(d, p) && OnGrid(d.commissionWanted) && OnGrid(p.commissionLimit)
    requires 0.2 * Steps(d, p) as real <= Gap(d, p) < 0.3 * Steps(d, p) as real
    ensures (forall a, b :: a - b == 0.2 ==> f.minus(a, b) < 0.2) ==> Outcome(f, d, p, Opening(d), 1) == None
    ensures (forall a, b :: a - b == 0.2 ==> f.minus(a, b) >= 0.2) ==> Outcome(f, d, p, Opening(d), 1).Some?
  {
    hide Outcome, Path, Walkable, Arithmetic.Near, Tenths, OnGrid, Compatible, Opening, TwoTenthsPass;
    GapDecides(f, d, p);
    var a, b := BandStep(f, p.commissionLimit, d.commissionWanted, Steps(d, p));
    if forall a, b :: a - b == 0.2 ==> f.minus(a, b) >= 0.2 {
      AllPass(f, FullPath(f, d, p));
    }
  }

  /**
    Binary floating point rounds 14.25 to 14.2 and finds 14.2 - 14.0 below 0.2: a distributor that wants 14
    and would give 18 parts on the first turn from a producer that would take 15.
  */
  lemma {:induction false} FourteenAgainstFifteen(f: Arithmetic)
    requires f.concede(14.0, 15.0, 4) == 14.2 && -0.2 < f.minus(14.2, 14.0) < 0.2
    ensures var d, p := Mandate(14.0, 18.0, 36, 24, 300, false), Mandate(20.0, 15.0, 24, 24, 400, false);
      Compatible(d, p) && Outcome(f, d, p, Opening(d), 1) == None
  {
    var d, p := Mandate(14.0, 18.0, 36, 24, 300, false), Mandate(20.0, 15.0, 24, 24, 400, false);
    ConcludesIff(f, d, p);
    WalkableStep(f, 15.0, 14.0, 4);
  }
}
