/** How many cells may be in flight, steered by how long each waits for its first byte. */
module InFlightLimitModel {
  import opened Wrappers

  const START_CELLS: real := 1.0
  const MIN_CELLS: real := 1.0
  const MAX_CELLS: real := 128.0
  const ALLOWED_WAIT_IN_LINE_MS: real := 250.0

  function Clamp(value: real, min: real, max: real): real {
    var low := if value < min then min else value;
    if low < max then low else max
  }

  function AtLeast(value: real, least: real): real {
    if value < least then least else value
  }

  // ----- the controller

  /** The count, the shortest wait seen (none yet is endless), and the round. */
  datatype Limit = Limit(cells: real, usualWaitMs: Option<real>, round: nat)

  datatype Observation = Observation(round: nat, waitMs: real, fromCache: bool)

  const FRESH: Limit := Limit(START_CELLS, None, 0)

  function Usual(limit: Limit, waitMs: real): real {
    if limit.usualWaitMs.Some? && limit.usualWaitMs.value < waitMs then limit.usualWaitMs.value else waitMs
  }

  function Factor(usual: real, waitMs: real): real {
    Clamp((usual + ALLOWED_WAIT_IN_LINE_MS) / AtLeast(waitMs, 1.0), 0.5, 2.0)
  }

  function Moved(cells: real, usual: real, waitMs: real): real {
    Clamp(cells * Factor(usual, waitMs), MIN_CELLS, MAX_CELLS)
  }

  function Observed(limit: Limit, o: Observation): Limit {
    if o.fromCache then limit
    else
      var usual := Usual(limit, o.waitMs);
      if o.round != limit.round then limit.(usualWaitMs := Some(usual))
      else Limit(Moved(limit.cells, usual, o.waitMs), Some(usual), limit.round + 1)
  }

  function AfterAll(limit: Limit, os: seq<Observation>): Limit {
    if os == [] then limit else Observed(AfterAll(limit, os[..|os| - 1]), os[|os| - 1])
  }

  class InFlightLimit {
    var cells: real
    var usualWaitMs: Option<real>
    var round: nat

    function View(): Limit
      reads this
    {
      Limit(cells, usualWaitMs, round)
    }

    constructor ()
      ensures View() == FRESH
    {
      cells := START_CELLS;
      usualWaitMs := None;
      round := 0;
    }

    method Reset()
      modifies this
      ensures View() == FRESH
    {
      cells := START_CELLS;
      usualWaitMs := None;
      round := 0;
    }

    method AllowedCells() returns (allowed: int)
      ensures allowed as real <= AtLeast(cells, MIN_CELLS) < allowed as real + 1.0
      ensures allowed >= 1
    {
      allowed := if cells.Floor < 1 then 1 else cells.Floor;
    }

    method Observe(o: Observation)
      modifies this
      ensures View() == Observed(old(View()), o)
    {
      if o.fromCache {
        return;
      }
      var usual := Usual(View(), o.waitMs);
      usualWaitMs := Some(usual);
      if o.round != round {
        return;
      }
      var factor := Factor(usual, o.waitMs);
      cells := Clamp(cells * factor, MIN_CELLS, MAX_CELLS);
      round := round + 1;
    }
  }

  // ----- bounds over every run

  predicate InBounds(cells: real) {
    MIN_CELLS <= cells <= MAX_CELLS
  }

  /** One observation moves the count by at most a factor of two, and only in its own round and from the network. */
  lemma OneStep(limit: Limit, o: Observation)
    requires InBounds(limit.cells)
    ensures var next := Observed(limit, o);
            && InBounds(next.cells)
            && limit.cells <= next.cells * 2.0 && next.cells <= limit.cells * 2.0
            && (o.fromCache || o.round != limit.round ==> next.cells == limit.cells && next.round == limit.round)
            && (!o.fromCache && o.round == limit.round ==> next.round == limit.round + 1)
            && (o.fromCache ==> next == limit)
  {
    if !o.fromCache && o.round == limit.round {
      var factor := Factor(Usual(limit, o.waitMs), o.waitMs);
      FactorInRange(Usual(limit, o.waitMs), o.waitMs);
      FactorMoves(limit.cells, factor, limit.cells * factor);
    }
  }

  lemma FactorInRange(usual: real, waitMs: real)
    ensures 0.5 <= Factor(usual, waitMs) <= 2.0
  {
    ClampBetween((usual + ALLOWED_WAIT_IN_LINE_MS) / AtLeast(waitMs, 1.0), 0.5, 2.0);
  }

  lemma ClampBetween(value: real, min: real, max: real)
    requires min <= max
    ensures min <= Clamp(value, min, max) <= max
  {
  }

  lemma FactorMoves(cells: real, factor: real, scaled: real)
    requires InBounds(cells) && 0.5 <= factor <= 2.0 && scaled == cells * factor
    ensures cells <= scaled * 2.0 && scaled <= cells * 2.0
    ensures var next := Clamp(scaled, MIN_CELLS, MAX_CELLS);
            cells <= next * 2.0 && next <= cells * 2.0 && InBounds(next)
  {
    Scale(cells, 0.5, factor);
    Scale(cells, factor, 2.0);
  }

  lemma Scale(k: real, a: real, b: real)
    requires k >= 0.0 && a <= b
    ensures k * a <= k * b
  {
  }

  function NetworkWaits(os: seq<Observation>): seq<real> {
    if os == [] then []
    else NetworkWaits(os[..|os| - 1]) + if os[|os| - 1].fromCache then [] else [os[|os| - 1].waitMs]
  }

  /** Over every run the count stays in bounds and the usual wait is the least network wait seen. */
  lemma {:induction false} EveryRun(os: seq<Observation>)
    ensures var limit := AfterAll(FRESH, os);
            && InBounds(limit.cells)
            && limit.round <= |NetworkWaits(os)|
            && (limit.usualWaitMs.None? <==> NetworkWaits(os) == [])
            && (limit.usualWaitMs.Some? ==>
                  && limit.usualWaitMs.value in NetworkWaits(os)
                  && forall w :: w in NetworkWaits(os) ==> limit.usualWaitMs.value <= w)
  {
    if os != [] {
      EveryRun(os[..|os| - 1]);
      OneStep(AfterAll(FRESH, os[..|os| - 1]), os[|os| - 1]);
    }
  }

  // ----- a steady link

  /** The wait of a cell on a link with a fixed round trip and a cost for each cell in flight. */
  function LinkWait(base: real, slope: real, cells: real): real {
    base + slope * cells
  }

  predicate Link(base: real, slope: real) {
    base >= 1.0 && slope > 0.0
  }

  /**
   * What a fetch on the link may report: an answer from the cache, this round's wait, or the wait of a cell
   * asked for in another round, which is `least` or more.
   */
  predicate OnLink(base: real, slope: real, least: real, limit: Limit, o: Observation) {
    || o.fromCache
    || (o.round != limit.round && o.waitMs >= least)
    || (o.round == limit.round && o.waitMs == LinkWait(base, slope, limit.cells))
  }

  predicate RunOnLink(base: real, slope: real, least: real, limit: Limit, os: seq<Observation>) {
    forall i :: 0 <= i < |os| ==> OnLink(base, slope, least, AfterAll(limit, os[..i]), os[i])
  }

  lemma RunOnLinkSoFar(base: real, slope: real, least: real, limit: Limit, os: seq<Observation>)
    requires os != [] && RunOnLink(base, slope, least, limit, os)
    ensures RunOnLink(base, slope, least, limit, os[..|os| - 1])
    ensures OnLink(base, slope, least, AfterAll(limit, os[..|os| - 1]), os[|os| - 1])
  {
    var shorter := os[..|os| - 1];
    forall i | 0 <= i < |shorter| ensures OnLink(base, slope, least, AfterAll(limit, shorter[..i]), shorter[i]) {
      assert shorter[..i] == os[..i];
    }
  }

  lemma LinkWaitAbove(base: real, slope: real, cells: real)
    requires Link(base, slope) && cells >= 1.0
    ensures LinkWait(base, slope, cells) >= base + slope
  {
    Scale(slope, 1.0, cells);
  }

  lemma ObservedInRound(limit: Limit, usual: real, waitMs: real)
    requires Usual(limit, waitMs) == usual
    ensures Observed(limit, Observation(limit.round, waitMs, false))
         == Limit(Moved(limit.cells, usual, waitMs), Some(usual), limit.round + 1)
  {
  }

  lemma ObservedElsewhere(limit: Limit, usual: real, o: Observation)
    requires limit.usualWaitMs == Some(usual)
    requires o.fromCache || (o.round != limit.round && usual <= o.waitMs)
    ensures Observed(limit, o) == limit
  {
  }

  // ----- one round, in plain numbers

  lemma Product(a: real, b: real)
    requires 0.0 <= a && 0.0 <= b
    ensures 0.0 <= a * b
  {
  }

  lemma Cancel(a: real, b: real, k: real)
    requires 0.0 < k && a * k <= b * k
    ensures a <= b
  {
  }

  /** At the balance a cell waits in line, beyond the usual wait, exactly as long as is allowed. */
  predicate Balances(base: real, slope: real, usual: real, balance: real) {
    slope * balance == usual - base + ALLOWED_WAIT_IN_LINE_MS
  }

  /** A round shrinks the distance to the balance by base over the wait. */
  lemma DistanceShrinks(base: real, slope: real, usual: real, cells: real, wait: real, raw: real, balance: real)
    requires wait == base + slope * cells && Balances(base, slope, usual, balance)
    requires raw * wait == cells * (usual + ALLOWED_WAIT_IN_LINE_MS)
    ensures (balance - raw) * wait == (balance - cells) * base
    ensures (raw - balance) * wait == (cells - balance) * base
  {
    assert (balance - raw) * wait == balance * wait - raw * wait;
    assert balance * wait == balance * base + balance * (slope * cells);
    assert balance * (slope * cells) == (slope * balance) * cells;
    assert cells * (usual + ALLOWED_WAIT_IN_LINE_MS) == cells * base + cells * (usual - base + ALLOWED_WAIT_IN_LINE_MS);
    assert (balance - cells) * base == balance * base - cells * base;
    assert (raw - balance) * wait == -((balance - raw) * wait);
    assert (cells - balance) * base == -((balance - cells) * base);
  }

  /** The pace holds where base over the least wait on the link is within it. */
  predicate Paced(base: real, slope: real, pace: real) {
    126.0 / 127.0 <= pace < 1.0 && base <= pace * (base + slope)
  }

  lemma GapShrinks(gap: real, left: real, base: real, wait: real, least: real, pace: real)
    requires left * wait == gap * base && 0.0 <= gap
    requires 0.0 < base < least <= wait && base <= pace * least
    ensures 0.0 <= left <= gap && left <= pace * gap
  {
    Product(gap, base);
    if left < 0.0 {
      Cancel(0.0, left, wait);
    }
    Scale(left, least, wait);
    assert left * least <= gap * base;
    Scale(gap, base, pace * least);
    assert gap * (pace * least) == pace * gap * least;
    Cancel(left, pace * gap, least);
    Scale(gap, base, least);
    Cancel(left, gap, least);
  }

  /** Cutting the same stretch off both gaps keeps the pace. */
  lemma NearerTarget(gap: real, left: real, stretch: real, pace: real)
    requires left + stretch <= pace * (gap + stretch) && 0.0 <= stretch && pace <= 1.0
    ensures left <= pace * gap
  {
    Scale(stretch, pace, 1.0);
    assert pace * (gap + stretch) == pace * gap + stretch * pace;
  }

  function Gap(a: real, b: real): real {
    if a < b then b - a else a - b
  }

  function Target(balance: real): real {
    Clamp(balance, MIN_CELLS, MAX_CELLS)
  }

  /** The count a round leads to, from the count the unlimited factor would give. */
  function Limited(cells: real, raw: real): real {
    Clamp(Clamp(raw, 0.5 * cells, 2.0 * cells), MIN_CELLS, MAX_CELLS)
  }

  lemma LimitedUp(cells: real, balance: real, raw: real, pace: real)
    requires InBounds(cells) && cells <= raw <= balance
    requires balance - raw <= pace * (balance - cells) && 126.0 / 127.0 <= pace < 1.0
    ensures var next, target := Limited(cells, raw), Target(balance);
            cells <= next <= target && target - next <= pace * (target - cells)
  {
    var gap, stretch := Target(balance) - cells, balance - Target(balance);
    Product(pace, gap);
    Scale(gap, 126.0 / 127.0, pace);
    if 0.0 <= stretch {
      assert gap + stretch == balance - cells;
      NearerTarget(gap, balance - raw - stretch, stretch, pace);
    }
    UpWithin(cells, balance, raw, pace * gap);
  }

  lemma UpWithin(cells: real, balance: real, raw: real, within: real)
    requires InBounds(cells) && cells <= raw <= balance
    requires 0.0 <= within && 126.0 / 127.0 * (Target(balance) - cells) <= within && Target(balance) - raw <= within
    ensures var next, target := Limited(cells, raw), Target(balance);
            cells <= next <= target && target - next <= within
  {
  }

  lemma LimitedDown(cells: real, balance: real, raw: real, pace: real)
    requires InBounds(cells) && balance <= raw <= cells
    requires raw - balance <= pace * (cells - balance) && 126.0 / 127.0 <= pace < 1.0
    ensures var next, target := Limited(cells, raw), Target(balance);
            target <= next <= cells && next - target <= pace * (cells - target)
  {
    var gap, stretch := cells - Target(balance), Target(balance) - balance;
    Product(pace, gap);
    Scale(gap, 126.0 / 127.0, pace);
    if 0.0 <= stretch {
      assert gap + stretch == cells - balance;
      NearerTarget(gap, raw - balance - stretch, stretch, pace);
    }
    DownWithin(cells, balance, raw, pace * gap);
  }

  lemma DownWithin(cells: real, balance: real, raw: real, within: real)
    requires InBounds(cells) && balance <= raw <= cells
    requires 0.0 <= within && 126.0 / 127.0 * (cells - Target(balance)) <= within && raw - Target(balance) <= within
    ensures var next, target := Limited(cells, raw), Target(balance);
            target <= next <= cells && next - target <= within
  {
  }

  /** A round on the link, without its factor. */
  lemma Approach(base: real, slope: real, usual: real, balance: real, pace: real, cells: real, wait: real, raw: real)
    requires Link(base, slope) && Balances(base, slope, usual, balance) && Paced(base, slope, pace)
    requires InBounds(cells) && wait == base + slope * cells && base + slope <= wait
    requires raw * wait == cells * (usual + ALLOWED_WAIT_IN_LINE_MS)
    ensures Approaches(cells, Limited(cells, raw), Target(balance), pace)
  {
    DistanceShrinks(base, slope, usual, cells, wait, raw, balance);
    if cells <= balance {
      ApproachUp(base, base + slope, balance, pace, cells, wait, raw);
    } else {
      ApproachDown(base, base + slope, balance, pace, cells, wait, raw);
    }
  }

  lemma ApproachUp(base: real, least: real, balance: real, pace: real, cells: real, wait: real, raw: real)
    requires InBounds(cells) && cells <= balance && (balance - raw) * wait == (balance - cells) * base
    requires 0.0 < base < least <= wait && 126.0 / 127.0 <= pace < 1.0 && base <= pace * least
    ensures Approaches(cells, Limited(cells, raw), Target(balance), pace)
  {
    GapShrinks(balance - cells, balance - raw, base, wait, least, pace);
    LimitedUpApproaches(cells, balance, raw, pace);
  }

  lemma LimitedUpApproaches(cells: real, balance: real, raw: real, pace: real)
    requires InBounds(cells) && cells <= raw <= balance && balance - raw <= pace * (balance - cells) && 126.0 / 127.0 <= pace < 1.0
    ensures Approaches(cells, Limited(cells, raw), Target(balance), pace)
  {
    LimitedUp(cells, balance, raw, pace);
    assert Gap(cells, Target(balance)) == Target(balance) - cells;
  }

  lemma ApproachDown(base: real, least: real, balance: real, pace: real, cells: real, wait: real, raw: real)
    requires InBounds(cells) && balance <= cells && (raw - balance) * wait == (cells - balance) * base
    requires 0.0 < base < least <= wait && 126.0 / 127.0 <= pace < 1.0 && base <= pace * least
    ensures Approaches(cells, Limited(cells, raw), Target(balance), pace)
  {
    GapShrinks(cells - balance, raw - balance, base, wait, least, pace);
    LimitedDownApproaches(cells, balance, raw, pace);
  }

  lemma LimitedDownApproaches(cells: real, balance: real, raw: real, pace: real)
    requires InBounds(cells) && balance <= raw <= cells && raw - balance <= pace * (cells - balance) && 126.0 / 127.0 <= pace < 1.0
    ensures Approaches(cells, Limited(cells, raw), Target(balance), pace)
  {
    LimitedDown(cells, balance, raw, pace);
    assert Gap(cells, Target(balance)) == cells - Target(balance);
  }

  /** From one count to the next: towards the target, never past it, and closing the gap at the pace. */
  predicate Approaches(cells: real, next: real, target: real, pace: real) {
    && (cells <= target ==> cells <= next <= target)
    && (target <= cells ==> target <= next <= cells)
    && Gap(next, target) <= pace * Gap(cells, target)
  }

  lemma MovedIsLimited(cells: real, usual: real, waitMs: real) returns (raw: real)
    requires cells >= 1.0 && waitMs >= 1.0
    ensures raw * waitMs == cells * (usual + ALLOWED_WAIT_IN_LINE_MS)
    ensures Moved(cells, usual, waitMs) == Limited(cells, raw)
  {
    var factor := (usual + ALLOWED_WAIT_IN_LINE_MS) / AtLeast(waitMs, 1.0);
    raw := cells * factor;
    Undivide(cells, usual + ALLOWED_WAIT_IN_LINE_MS, waitMs);
    ClampScales(cells, factor);
  }

  lemma Undivide(cells: real, allowed: real, wait: real)
    requires wait >= 1.0
    ensures cells * (allowed / wait) * wait == cells * allowed
  {
    assert cells * (allowed / wait) * wait == cells * ((allowed / wait) * wait);
  }

  lemma ClampScales(cells: real, factor: real)
    requires cells >= 1.0
    ensures cells * Clamp(factor, 0.5, 2.0) == Clamp(cells * factor, 0.5 * cells, 2.0 * cells)
  {
    if factor <= 0.5 {
      Scale(cells, factor, 0.5);
    } else if factor <= 2.0 {
      Scale(cells, factor, 2.0);
      Scale(cells, 0.5, factor);
    } else {
      Scale(cells, 2.0, factor);
    }
  }

  // ----- the approach

  /** With any usual wait, a round takes the count towards its target, never past it, and shrinks the gap by the pace. */
  lemma RoundApproaches(base: real, slope: real, usual: real, balance: real, pace: real, cells: real)
    requires Link(base, slope) && Balances(base, slope, usual, balance) && Paced(base, slope, pace)
    requires InBounds(cells)
    ensures Approaches(cells, Moved(cells, usual, LinkWait(base, slope, cells)), Target(balance), pace)
  {
    LinkWaitAbove(base, slope, cells);
    var wait := LinkWait(base, slope, cells);
    var raw := MovedIsLimited(cells, usual, wait);
    Approach(base, slope, usual, balance, pace, cells, wait, raw);
  }

  function Power(pace: real, n: nat): real {
    if n == 0 then 1.0 else pace * Power(pace, n - 1)
  }

  lemma Chain(cells: real, before: real, next: real, target: real, power: real, pace: real)
    requires Approaches(cells, before, target, power) && Approaches(before, next, target, pace) && 0.0 <= pace
    ensures Approaches(cells, next, target, pace * power)
  {
    Scale(pace, Gap(before, target), power * Gap(cells, target));
    assert pace * (power * Gap(cells, target)) == pace * power * Gap(cells, target);
  }

  lemma {:induction false} PowerFalls(pace: real, n: nat)
    requires 0.0 < pace < 1.0
    ensures 0.0 < Power(pace, n) && Power(pace, n) * (1.0 + n as real * (1.0 - pace)) <= 1.0
  {
    if n > 0 {
      PowerFalls(pace, n - 1);
      FallStep(pace, Power(pace, n - 1), (n - 1) as real);
    }
  }

  lemma FallStep(pace: real, power: real, rounds: real)
    requires 0.0 < pace < 1.0 && 0.0 < power && power * (1.0 + rounds * (1.0 - pace)) <= 1.0 && 0.0 <= rounds
    ensures 0.0 < pace * power && pace * power * (1.0 + (rounds + 1.0) * (1.0 - pace)) <= 1.0
  {
    Chord(pace, rounds);
    Scale(power, pace * (1.0 + (rounds + 1.0) * (1.0 - pace)), 1.0 + rounds * (1.0 - pace));
    assert pace * power * (1.0 + (rounds + 1.0) * (1.0 - pace))
        == power * (pace * (1.0 + (rounds + 1.0) * (1.0 - pace)));
  }

  lemma Chord(pace: real, rounds: real)
    requires 0.0 < pace < 1.0 && 0.0 <= rounds
    ensures pace * (1.0 + (rounds + 1.0) * (1.0 - pace)) <= 1.0 + rounds * (1.0 - pace)
  {
    var d := 1.0 - pace;
    var x := rounds * d;
    Product(rounds, d);
    Product(d, x);
    Product(d, d);
    assert (rounds + 1.0) * d == x + d;
    assert pace * (1.0 + x + d) == 1.0 + x - d * x - d * d;
  }

  /** From one state to a later one: each round gone by brings the count nearer its target by the pace. */
  predicate NearerBy(limit: Limit, after: Limit, target: real, pace: real) {
    && InBounds(after.cells)
    && limit.round <= after.round
    && Approaches(limit.cells, after.cells, target, Power(pace, after.round - limit.round))
  }

  /** The usual wait is one the count in flight does not undercut. */
  predicate UsualHolds(base: real, slope: real, usual: real, limit: Limit) {
    limit.usualWaitMs == Some(usual) && usual <= LinkWait(base, slope, limit.cells)
  }

  /** Short of the target the wait only grows, and past it the wait in line keeps it above the usual wait. */
  lemma UsualStays(base: real, slope: real, usual: real, balance: real, cells: real, next: real)
    requires Link(base, slope) && Balances(base, slope, usual, balance) && InBounds(cells)
    requires usual <= LinkWait(base, slope, cells)
    requires cells <= next || (Target(balance) <= next && next <= cells)
    ensures usual <= LinkWait(base, slope, next)
  {
    if cells <= next {
      Scale(slope, cells, next);
    } else {
      Scale(slope, balance, next);
    }
  }

  /** An observation of this round, whatever the usual wait was before it. */
  lemma InRoundApproaches(base: real, slope: real, usual: real, balance: real, pace: real, limit: Limit)
    requires Link(base, slope) && Balances(base, slope, usual, balance) && Paced(base, slope, pace)
    requires InBounds(limit.cells) && Usual(limit, LinkWait(base, slope, limit.cells)) == usual
    ensures var after := Observed(limit, Observation(limit.round, LinkWait(base, slope, limit.cells), false));
            && NearerBy(limit, after, Target(balance), pace)
            && after.round == limit.round + 1
            && UsualHolds(base, slope, usual, after)
  {
    var wait := LinkWait(base, slope, limit.cells);
    var next := Moved(limit.cells, usual, wait);
    RoundApproaches(base, slope, usual, balance, pace, limit.cells);
    ObservedInRound(limit, usual, wait);
    OneStep(limit, Observation(limit.round, wait, false));
    PowerOfOne(pace);
    UsualStays(base, slope, usual, balance, limit.cells, next);
  }

  lemma PowerOfOne(pace: real)
    ensures Power(pace, 1) == pace && Power(pace, 0) == 1.0
  {
  }

  lemma StepApproaches(base: real, slope: real, usual: real, balance: real, pace: real, limit: Limit, o: Observation)
    requires Link(base, slope) && Balances(base, slope, usual, balance) && Paced(base, slope, pace)
    requires InBounds(limit.cells) && UsualHolds(base, slope, usual, limit) && OnLink(base, slope, usual, limit, o)
    ensures NearerBy(limit, Observed(limit, o), Target(balance), pace)
    ensures UsualHolds(base, slope, usual, Observed(limit, o))
    ensures Observed(limit, o).round <= limit.round + 1
  {
    if o.fromCache || o.round != limit.round {
      ObservedElsewhere(limit, usual, o);
      PowerOfOne(pace);
    } else {
      InRoundApproaches(base, slope, usual, balance, pace, limit);
    }
  }

  /**
   * Over any run on the link, once the usual wait is one the count does not undercut, it stays; and the count
   * moves towards its target only, never past it, at a geometric pace in the rounds the run has had.
   */
  lemma {:induction false} RunApproaches(base: real, slope: real, usual: real, balance: real, pace: real,
                                         limit: Limit, os: seq<Observation>)
    requires Link(base, slope) && Balances(base, slope, usual, balance) && Paced(base, slope, pace)
    requires InBounds(limit.cells) && UsualHolds(base, slope, usual, limit)
    requires RunOnLink(base, slope, usual, limit, os)
    ensures NearerBy(limit, AfterAll(limit, os), Target(balance), pace)
    ensures UsualHolds(base, slope, usual, AfterAll(limit, os))
  {
    if os == [] {
      PowerOfOne(pace);
    } else {
      var shorter := os[..|os| - 1];
      RunOnLinkSoFar(base, slope, usual, limit, os);
      RunApproaches(base, slope, usual, balance, pace, limit, shorter);
      StepApproaches(base, slope, usual, balance, pace, AfterAll(limit, shorter), os[|os| - 1]);
      NearerChain(limit, AfterAll(limit, shorter), AfterAll(limit, os), Target(balance), pace);
    }
  }

  lemma NearerChain(limit: Limit, before: Limit, after: Limit, target: real, pace: real)
    requires NearerBy(limit, before, target, pace) && NearerBy(before, after, target, pace)
    requires after.round <= before.round + 1 && 0.0 <= pace
    ensures NearerBy(limit, after, target, pace)
  {
    var n := before.round - limit.round;
    if after.round == before.round {
      Chain(limit.cells, before.cells, after.cells, target, Power(pace, n), 1.0);
    } else {
      assert Power(pace, 1) == pace && Power(pace, n + 1) == pace * Power(pace, n);
      Chain(limit.cells, before.cells, after.cells, target, Power(pace, n), pace);
    }
  }

  // ----- from the start

  /** Before its first round the controller has seen no wait below the link's least; after it, exactly that least. */
  predicate FromStart(base: real, slope: real, limit: Limit) {
    if limit.round == 0
    then limit.cells == START_CELLS && (limit.usualWaitMs.Some? ==> base + slope <= limit.usualWaitMs.value)
    else limit.usualWaitMs == Some(base + slope)
  }

  /** The first cell waits alone, and no cell waits less: its wait is the usual one from then on. */
  lemma UsualFromStart(base: real, slope: real, limit: Limit)
    requires Link(base, slope) && InBounds(limit.cells) && FromStart(base, slope, limit)
    ensures Usual(limit, LinkWait(base, slope, limit.cells)) == base + slope
  {
    LinkWaitAbove(base, slope, limit.cells);
  }

  lemma StepFromStart(base: real, slope: real, balance: real, pace: real, limit: Limit, o: Observation)
    requires Link(base, slope) && Balances(base, slope, base + slope, balance) && Paced(base, slope, pace)
    requires InBounds(limit.cells) && FromStart(base, slope, limit) && OnLink(base, slope, base + slope, limit, o)
    ensures NearerBy(limit, Observed(limit, o), Target(balance), pace)
    ensures FromStart(base, slope, Observed(limit, o))
    ensures Observed(limit, o).round <= limit.round + 1
  {
    if o.fromCache || o.round != limit.round {
      PowerOfOne(pace);
      StaleFromStart(base, slope, limit, o);
    } else {
      UsualFromStart(base, slope, limit);
      InRoundApproaches(base, slope, base + slope, balance, pace, limit);
    }
  }

  lemma StaleFromStart(base: real, slope: real, limit: Limit, o: Observation)
    requires FromStart(base, slope, limit) && (o.fromCache || (o.round != limit.round && base + slope <= o.waitMs))
    ensures FromStart(base, slope, Observed(limit, o))
    ensures Observed(limit, o).round == limit.round && Observed(limit, o).cells == limit.cells
  {
  }

  /**
   * The main result: over any run on the link from the start, where no cell waits less than one alone, the
   * usual wait is that of one cell alone, and the count grows towards 1 + 250 / slope, or 128 if that is
   * less, never past it, at a geometric pace in the rounds.
   */
  lemma {:induction false} StartApproaches(base: real, slope: real, balance: real, pace: real, os: seq<Observation>)
    requires Link(base, slope) && Balances(base, slope, base + slope, balance) && Paced(base, slope, pace)
    requires RunOnLink(base, slope, base + slope, FRESH, os)
    ensures NearerBy(FRESH, AfterAll(FRESH, os), Target(balance), pace)
    ensures FromStart(base, slope, AfterAll(FRESH, os))
  {
    if os == [] {
      PowerOfOne(pace);
    } else {
      var shorter := os[..|os| - 1];
      RunOnLinkSoFar(base, slope, base + slope, FRESH, os);
      StartApproaches(base, slope, balance, pace, shorter);
      StepFromStart(base, slope, balance, pace, AfterAll(FRESH, shorter), os[|os| - 1]);
      NearerChain(FRESH, AfterAll(FRESH, shorter), AfterAll(FRESH, os), Target(balance), pace);
    }
  }

  /** Every link has, for each usual wait, a balance. */
  lemma EveryLinkBalances(base: real, slope: real, usual: real)
    requires Link(base, slope)
    ensures Balances(base, slope, usual, (usual - base + ALLOWED_WAIT_IN_LINE_MS) / slope)
  {
    Undone(usual - base + ALLOWED_WAIT_IN_LINE_MS, slope);
  }

  lemma Undone(value: real, divisor: real)
    requires divisor > 0.0
    ensures divisor * (value / divisor) == value
  {
  }

  /** Every link has a pace. */
  lemma EveryLinkHasPace(base: real, slope: real) returns (pace: real)
    requires Link(base, slope)
    ensures Paced(base, slope, pace)
  {
    var share := base / (base + slope);
    Undone(base, base + slope);
    pace := AtLeast(share, 126.0 / 127.0);
    ShareBelowOne(base, base + slope, share);
    ShareWithin(base, base + slope, share, pace);
  }

  lemma ShareBelowOne(base: real, least: real, share: real)
    requires 0.0 < base < least && least * share == base
    ensures share < 1.0
  {
    if share >= 1.0 {
      Scale(least, 1.0, share);
    }
  }

  lemma ShareWithin(base: real, least: real, share: real, pace: real)
    requires 0.0 <= least && least * share == base && share <= pace
    ensures base <= pace * least
  {
    Scale(least, share, pace);
  }

  /** So many rounds bring any count this close, from at most the whole range away. */
  predicate RoundsSuffice(close: real, pace: real, n: nat) {
    close * (n as real * (1.0 - pace)) >= MAX_CELLS
  }

  /** However close is asked for, enough rounds bring the count that close to its target, and it stays so. */
  lemma ComesClose(limit: Limit, after: Limit, target: real, pace: real, close: real)
    requires NearerBy(limit, after, target, pace) && 0.0 < pace < 1.0
    requires InBounds(limit.cells) && InBounds(target) && close > 0.0
    requires RoundsSuffice(close, pace, after.round - limit.round)
    ensures Gap(after.cells, target) <= close
  {
    var n := after.round - limit.round;
    PowerFalls(pace, n);
    Closer(limit.cells, after.cells, target, Power(pace, n), n as real * (1.0 - pace), close);
  }

  lemma Closer(cells: real, after: real, target: real, power: real, much: real, close: real)
    requires InBounds(cells) && InBounds(target) && Approaches(cells, after, target, power)
    requires 0.0 < power && power * (1.0 + much) <= 1.0 && close > 0.0 && close * much >= MAX_CELLS
    ensures Gap(after, target) <= close
  {
    Within(Gap(after, target), power, Gap(cells, target), much, close);
  }

  lemma Within(after: real, power: real, gap: real, much: real, close: real)
    requires after <= power * gap && 0.0 < power && 0.0 <= gap <= MAX_CELLS
    requires power * (1.0 + much) <= 1.0 && close > 0.0 && close * much >= MAX_CELLS
    ensures after <= close
  {
    Scale(power, gap, close * much);
    assert power * (1.0 + much) == power + power * much;
    Scale(close, power * much, 1.0);
    assert power * (close * much) == close * (power * much);
  }

  // ----- the balance of the round trip alone

  /** The wait of a cell asked for in this round. */
  function InRound(base: real, slope: real, limit: Limit): Observation {
    Observation(limit.round, LinkWait(base, slope, limit.cells), false)
  }

  /** One network observation a round, each a cell of that round. */
  function LinkRun(base: real, slope: real, n: nat): seq<Observation> {
    if n == 0 then []
    else
      var sofar := LinkRun(base, slope, n - 1);
      sofar + [InRound(base, slope, AfterAll(FRESH, sofar))]
  }

  lemma RunOnLinkMore(base: real, slope: real, least: real, limit: Limit, os: seq<Observation>, o: Observation)
    requires RunOnLink(base, slope, least, limit, os) && OnLink(base, slope, least, AfterAll(limit, os), o)
    ensures RunOnLink(base, slope, least, limit, os + [o])
    ensures AfterAll(limit, os + [o]) == Observed(AfterAll(limit, os), o)
  {
    var longer := os + [o];
    assert longer[..|os|] == os;
    forall i | 0 <= i < |longer| ensures OnLink(base, slope, least, AfterAll(limit, longer[..i]), longer[i]) {
      if i < |os| { assert longer[..i] == os[..i]; }
    }
  }

  lemma {:induction false} LinkRunOnLink(base: real, slope: real, least: real, n: nat)
    ensures AfterAll(FRESH, LinkRun(base, slope, n)).round == n
    ensures RunOnLink(base, slope, least, FRESH, LinkRun(base, slope, n))
  {
    if n > 0 {
      LinkRunOnLink(base, slope, least, n - 1);
      var sofar := LinkRun(base, slope, n - 1);
      RunOnLinkMore(base, slope, least, FRESH, sofar, InRound(base, slope, AfterAll(FRESH, sofar)));
    }
  }

  /** A whole number of rounds large enough. */
  lemma EnoughRounds(step: real) returns (n: nat)
    requires step > 0.0
    ensures n as real * step >= MAX_CELLS
  {
    n := (MAX_CELLS / step).Floor + 1;
    Cancel(MAX_CELLS / step, n as real, 1.0);
    Scale(step, MAX_CELLS / step, n as real);
  }

  /** The first cell's own share of the line counts as usual, so the first step may pass 250 / slope. */
  lemma StartPassesRoundTripBalance()
    ensures var limit := AfterAll(FRESH, [Observation(0, 251.0, false)]);
            && RunOnLink(1.0, 250.0, 251.0, FRESH, [Observation(0, 251.0, false)])
            && Balances(1.0, 250.0, 1.0, 1.0)
            && limit.cells == 501.0 / 251.0 && Target(1.0) < limit.cells
  {
    var o := Observation(0, 251.0, false);
    assert [o][..0] == [] && AfterAll(FRESH, []) == FRESH;
    assert AfterAll(FRESH, [o]) == Observed(FRESH, o);
  }

  /**
   * 250 / slope, the balance for a usual wait at the round trip, bounds every run from the start exactly on
   * links that never come to it.
   */
  lemma StartStaysBelowIff(base: real, slope: real, narrow: real)
    requires Link(base, slope) && Balances(base, slope, base, narrow)
    ensures (forall os :: RunOnLink(base, slope, base + slope, FRESH, os) ==> AfterAll(FRESH, os).cells <= Target(narrow))
            <==> narrow >= MAX_CELLS
  {
    if narrow >= MAX_CELLS {
      forall os | RunOnLink(base, slope, base + slope, FRESH, os) ensures AfterAll(FRESH, os).cells <= Target(narrow) {
        EveryRun(os);
      }
    } else {
      var os := RunPasses(base, slope, narrow);
      assert !(AfterAll(FRESH, os).cells <= Target(narrow));
    }
  }

  lemma RunPasses(base: real, slope: real, narrow: real) returns (os: seq<Observation>)
    requires Link(base, slope) && Balances(base, slope, base, narrow) && narrow < MAX_CELLS
    ensures RunOnLink(base, slope, base + slope, FRESH, os) && AfterAll(FRESH, os).cells > Target(narrow)
  {
    OneMoreCell(base, slope, narrow);
    var pace := EveryLinkHasPace(base, slope);
    var n := RoundsToPass(Target(narrow), Target(narrow + 1.0), pace);
    os := LinkRunPasses(base, slope, narrow + 1.0, Target(narrow), pace, n);
  }

  lemma LinkRunPasses(base: real, slope: real, balance: real, passed: real, pace: real, n: nat)
    returns (os: seq<Observation>)
    requires Link(base, slope) && Balances(base, slope, base + slope, balance) && Paced(base, slope, pace)
    requires passed < Target(balance) && RoundsSuffice((Target(balance) - passed) / 2.0, pace, n)
    ensures RunOnLink(base, slope, base + slope, FRESH, os) && AfterAll(FRESH, os).cells > passed
  {
    os := LinkRun(base, slope, n);
    LinkRunOnLink(base, slope, base + slope, n);
    StartApproaches(base, slope, balance, pace, os);
    Passes(AfterAll(FRESH, os), passed, Target(balance), pace, n);
  }

  lemma RoundsToPass(passed: real, target: real, pace: real) returns (n: nat)
    requires passed < target && 0.0 < pace < 1.0
    ensures RoundsSuffice((target - passed) / 2.0, pace, n)
  {
    var close := (target - passed) / 2.0;
    Positive(close, 1.0 - pace);
    n := EnoughRounds(close * (1.0 - pace));
    Regrouped(close, n as real, 1.0 - pace);
  }

  lemma Passes(after: Limit, passed: real, target: real, pace: real, n: nat)
    requires NearerBy(FRESH, after, target, pace) && 0.0 < pace < 1.0 && InBounds(target) && after.round == n
    requires passed < target && RoundsSuffice((target - passed) / 2.0, pace, n)
    ensures passed < after.cells
  {
    ComesClose(FRESH, after, target, pace, (target - passed) / 2.0);
  }

  /** A usual wait longer by one cell's share of the line moves the balance by one cell. */
  lemma OneMoreCell(base: real, slope: real, narrow: real)
    requires Link(base, slope) && Balances(base, slope, base, narrow)
    ensures Balances(base, slope, base + slope, narrow + 1.0) && narrow > 0.0
  {
    assert slope * (narrow + 1.0) == slope * narrow + slope;
    if narrow <= 0.0 { Scale(slope, narrow, 0.0); }
  }

  lemma Positive(a: real, b: real)
    requires a > 0.0 && b > 0.0
    ensures a * b > 0.0
  {
  }

  lemma Regrouped(close: real, n: real, step: real)
    ensures close * (n * step) == n * (close * step)
  {
  }
}
