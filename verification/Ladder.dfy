/**
 * The exit ladder both bots share, and the older trail the replay can also run. Premiums are
 * exact reals in dollars; `Round2` is the source's round to the cent (half up).
 */
module Ladder {
  import opened Market
  import opened Seqs

  datatype Source = INITIAL | TRAIL

  datatype Settings = Settings(
    stopPct: real, armPct: real, floorPct: real, givebackPct: real, tightFromPct: real, tightGivebackPct: real)

  const DEFAULT_PROFIT_LOCK := Settings(12.0, 8.0, 2.0, 6.0, 20.0, 4.0)

  function Round2(x: real): real {
    (x * 100.0 + 0.5).Floor as real / 100.0
  }

  // ----- Commission -----

  function CommissionForLeg(quantity: int, rate: real): real {
    Round2(Max(0, quantity) as real * rate)
  }

  function CommissionForRoundTrip(quantity: int, rate: real): real {
    Round2(CommissionForLeg(quantity, rate) * 2.0)
  }

  // ----- Return on cost -----

  function Qty(quantity: int): (q: real)
    ensures q >= 1.0
  {
    Max(quantity, 1) as real
  }

  function ReturnOnCostPct(bid: real, entry: real, quantity: int, commission: real): real {
    var cost := entry * 100.0 * Qty(quantity);
    if cost <= 0.0 then 0.0
    else ((bid - entry) * 100.0 * Qty(quantity) - commission) / cost * 100.0
  }

  function BidForReturnPct(returnPct: real, entry: real, quantity: int, commission: real): real {
    entry * (1.0 + returnPct / 100.0) + commission / (100.0 * Qty(quantity))
  }

  function LockedReturnFor(peakReturnPct: real, ladder: Settings): Option<real> {
    if peakReturnPct < ladder.armPct then None
    else
      var giveback := if peakReturnPct >= ladder.tightFromPct then ladder.tightGivebackPct else ladder.givebackPct;
      Some(MaxR(ladder.floorPct, peakReturnPct - giveback))
  }

  function DisasterStopBid(entry: real, quantity: int, commission: real, ladder: Settings): real {
    Round2(BidForReturnPct(-ladder.stopPct, entry, quantity, commission))
  }

  // ----- One tick of the ladder -----

  datatype Lock = Lock(
    entry: real, bid: real, peak: Option<real>, stop: Option<real>,
    quantity: int, commission: real, ladder: Settings)

  datatype Ratchet = Ratchet(peak: real, armed: bool, stop: Option<real>, source: Source, raised: bool)

  function OrElse(x: Option<real>, y: real): real {
    if x.Some? then x.value else y
  }

  function Raised(stop: Option<real>, level: real): bool {
    stop.None? || level > stop.value
  }

  function RatchetProfitLock(lock: Lock): Ratchet {
    var peak := MaxR(OrElse(lock.peak, lock.entry), lock.bid);
    var floor := DisasterStopBid(lock.entry, lock.quantity, lock.commission, lock.ladder);
    match LockedReturnFor(ReturnOnCostPct(peak, lock.entry, lock.quantity, lock.commission), lock.ladder)
    case None =>
      var stop := if lock.stop.None? then floor else MaxR(lock.stop.value, floor);
      Ratchet(peak, false, Some(stop), INITIAL, Raised(lock.stop, stop))
    case Some(locked) =>
      var desired := BidForReturnPct(locked, lock.entry, lock.quantity, lock.commission);
      var capped := Round2(MinR(desired, peak - 0.01));
      var stop := if lock.stop.None? then MaxR(floor, capped) else MaxR(lock.stop.value, MaxR(floor, capped));
      Ratchet(peak, true, Some(stop), TRAIL, Raised(lock.stop, stop))
  }

  // ----- The older trail -----

  datatype Trail = Trail(
    entry: real, bid: real, peak: Option<real>, stop: Option<real>, armed: bool,
    trailArmPct: real, trailPct: real, breakevenBid: real, minLockBid: real)

  function RatchetPremiumStop(t: Trail): Ratchet {
    var peak := MaxR(OrElse(t.peak, t.entry), t.bid);
    var armed := t.armed || t.bid >= t.entry * (1.0 + t.trailArmPct / 100.0);
    if !armed then Ratchet(peak, false, t.stop, INITIAL, false)
    else
      var desired := MaxR(peak * (1.0 - t.trailPct / 100.0), MaxR(t.breakevenBid, t.minLockBid));
      var capped := MinR(desired, peak - 0.01);
      var stop := if t.stop.None? then capped else MaxR(t.stop.value, capped);
      Ratchet(peak, true, Some(stop), TRAIL, Raised(t.stop, stop))
  }

  function BreakevenBidFor(entry: real, commission: real): real {
    entry + commission / 100.0
  }

  // ----- Exits -----

  /** Levels on the underlying, and the premium target; the ladder passes none of them. */
  datatype Levels = Levels(targetPremium: Option<real>, stopUnderlying: Option<real>, targetUnderlying: Option<real>)

  const NO_LEVELS := Levels(None, None, None)

  /** The spot is at or past a level, below it or above it. */
  predicate Reached(level: Option<real>, spot: real, below: bool) {
    level.Some? && if below then spot <= level.value else spot >= level.value
  }

  function DecideSoftExit(
    direction: Option<Direction>, spot: real, bid: Option<real>, stop: Option<real>, source: Source, levels: Levels)
    : Option<Reason>
  {
    if direction.None? then None
    else
      var isCall := direction.value == CALL;
      if bid.Some? && stop.Some? && bid.value <= stop.value then
        Some(if source == TRAIL then TRAIL_STOP else PREMIUM_STOP)
      else if Reached(levels.stopUnderlying, spot, isCall) then
        Some(UNDERLYING_STOP)
      else if bid.Some? && levels.targetPremium.Some? && bid.value >= levels.targetPremium.value then
        Some(PREMIUM_TARGET)
      else if Reached(levels.targetUnderlying, spot, !isCall) then
        Some(UNDERLYING_TARGET)
      else None
  }

  const SCALE_OUT_GAIN: real := 1.1

  function ScaleOutQuantity(quantity: int): int {
    if quantity < 2 then 0 else quantity / 2
  }

  predicate ShouldScaleOut(enabled: bool, scaledOut: bool, quantity: int, entry: real, bid: real) {
    && enabled && !scaledOut && ScaleOutQuantity(quantity) >= 1 && entry > 0.0 && bid > 0.0
    && bid >= entry * SCALE_OUT_GAIN
  }

  const TIME_STOP_GOING_MULT: real := 1.02
  const TIME_STOP_GREEN_CLOCKS: int := 2
  const TIME_STOP_MAX_CLOCKS: int := 3

  /** The clock a tick is judged by. */
  datatype Clock = Clock(useTimeStop: bool, openedAt: Option<int>, peakAt: Option<int>, now: Option<int>,
    seconds: Option<int>)

  function LimitMs(c: Clock): int {
    (if c.seconds.Some? then c.seconds.value else 180) * 1000
  }

  function Breakeven(entry: real, lock: Lock): real {
    entry + lock.commission / (100.0 * Qty(lock.quantity))
  }

  predicate TimeStopDue(entry: real, lock: Lock, c: Clock) {
    if !c.useTimeStop || c.openedAt.None? || c.now.None? then false
    else
      var held := c.now.value - c.openedAt.value;
      if held <= LimitMs(c) then false
      else if lock.bid < Breakeven(entry, lock) then true
      else if lock.bid >= entry * TIME_STOP_GOING_MULT then false
      else if held > LimitMs(c) * TIME_STOP_MAX_CLOCKS then true
      else
        var sinceHigh := c.now.value - (if c.peakAt.Some? then c.peakAt.value else c.openedAt.value);
        held > LimitMs(c) * TIME_STOP_GREEN_CLOCKS && sinceHigh > LimitMs(c)
  }

  datatype Decision =
    | Hold(ratchet: Ratchet)
    | ScaleOut(quantity: int, ratchet: Ratchet)
    | Exit(reason: Reason, quantity: int, ratchet: Ratchet)

  datatype Tick = Tick(
    lock: Lock, direction: Option<Direction>, spot: real, levels: Levels,
    useScaleOut: bool, scaledOut: bool, quantity: int, entry: real, clock: Clock)

  function DecideTickExit(t: Tick): Decision {
    var ratchet := RatchetProfitLock(t.lock);
    if TimeStopDue(t.entry, t.lock, t.clock) then Exit(TIME_STOP, t.quantity, ratchet)
    else
      match DecideSoftExit(t.direction, t.spot, Some(t.lock.bid), ratchet.stop, ratchet.source, t.levels)
      case Some(reason) => Exit(reason, t.quantity, ratchet)
      case None =>
        if ShouldScaleOut(t.useScaleOut, t.scaledOut, t.quantity, t.entry, t.lock.bid) then
          ScaleOut(ScaleOutQuantity(t.quantity), ratchet)
        else Hold(ratchet)
  }
}
