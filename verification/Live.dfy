/** The live trainer's tick loop on its open position: the ladder, the sale it asks for, the stop after a scale-out. */
module Live {
  import opened Ladder
  import opened Market
  import opened Seqs

  /** What stays fixed while a position is open. */
  datatype Terms = Terms(
    entry: real, direction: Direction, openedAt: int, ladder: Ladder.Settings, commission: real,
    useScaleOut: bool, useTimeStop: bool, timeStopSeconds: Option<int>)

  datatype Open = Open(
    quantity: int, peak: Option<real>, peakAt: Option<int>, stop: Option<real>, source: Source,
    armed: bool, scaledOut: bool)

  datatype Slice = Slice(quantity: int, reason: Reason, bid: real)

  function Rest(p: Open, quantity: int): Option<Open> {
    if quantity >= p.quantity then None else Some(p.(quantity := p.quantity - quantity))
  }

  /** The position a tick leaves, if any, and the sale it makes, if any. */
  datatype After = After(position: Option<Open>, sold: Option<Slice>)

  function TickFor(terms: Terms, p: Open, now: int, bid: real, spot: Option<real>): Tick {
    var peakAt := if p.peak.None? || bid > p.peak.value then Some(now) else p.peakAt;
    Tick(
      Lock(terms.entry, bid, p.peak, p.stop, p.quantity, CommissionForRoundTrip(p.quantity, terms.commission),
        terms.ladder),
      Some(terms.direction), OrElse(spot, 0.0), NO_LEVELS,
      terms.useScaleOut, p.scaledOut, p.quantity, terms.entry,
      Clock(terms.useTimeStop, Some(terms.openedAt), peakAt, Some(now), terms.timeStopSeconds))
  }

  function Ratcheted(p: Open, tick: Tick): Open {
    var r := DecideTickExit(tick).ratchet;
    p.(peak := Some(r.peak), peakAt := tick.clock.peakAt, stop := r.stop, source := r.source, armed := r.armed)
  }

  function ScaleBreakeven(terms: Terms): real {
    BreakevenBidFor(terms.entry, CommissionForRoundTrip(1, terms.commission))
  }

  /** What is left after a scale-out is stopped no lower than breakeven. */
  function Secured(terms: Terms, p: Open): Open {
    var stop := MaxR(OrElse(p.stop, 0.0), ScaleBreakeven(terms));
    if Raised(p.stop, stop) then p.(scaledOut := true, stop := Some(stop), source := TRAIL)
    else p.(scaledOut := true)
  }

  function AfterTick(terms: Terms, p: Open, now: int, bid: real, spot: Option<real>): After {
    var tick := TickFor(terms, p, now, bid, spot);
    var seen := Ratcheted(p, tick);
    match DecideTickExit(tick)
    case Hold(_) => After(Some(seen), None)
    case ScaleOut(q, _) =>
      After(Some(Secured(terms, seen.(quantity := p.quantity - q))), Some(Slice(q, SCALE_OUT, bid)))
    case Exit(reason, q, _) => After(None, Some(Slice(q, reason, bid)))
  }

  /** The entry: stop at the disaster level, peak at the bid the contract was picked by. */
  function Entered(terms: Terms, quantity: int, bid: real): Open {
    Open(
      quantity, Some(bid), Some(terms.openedAt),
      Some(DisasterStopBid(terms.entry, quantity, CommissionForRoundTrip(quantity, terms.commission), terms.ladder)),
      INITIAL, false, false)
  }

  /** The book's open position. */
  class Desk {
    const terms: Terms
    var position: Option<Open>

    ghost predicate Valid()
      reads this
    {
      position.Some? ==> position.value.quantity >= 1
    }

    constructor (terms: Terms, quantity: nat, bid: real)
      requires quantity >= 1
      ensures Valid() && this.terms == terms
      ensures position == Some(Entered(terms, quantity, bid))
    {
      this.terms := terms;
      position := Some(Open(
        quantity, Some(bid), Some(terms.openedAt),
        Some(DisasterStopBid(terms.entry, quantity, CommissionForRoundTrip(quantity, terms.commission), terms.ladder)),
        INITIAL, false, false));
    }

    /** Sells a slice; what is left, if anything, stays open. */
    method SellSlice(quantity: int, reason: Reason, bid: real) returns (sold: Option<Slice>)
      requires Valid() && position.Some? && quantity <= position.value.quantity
      modifies this
      ensures Valid()
      ensures quantity < 1 ==> sold.None? && position == old(position)
      ensures quantity >= 1 ==> sold == Some(Slice(quantity, reason, bid))
      ensures quantity >= 1 ==> position == Rest(old(position).value, quantity)
    {
      if quantity < 1 {
        return None;
      }
      var remaining := position.value.quantity - quantity;
      position := if remaining > 0 then Some(position.value.(quantity := remaining)) else None;
      sold := Some(Slice(quantity, reason, bid));
    }

    /** One quote; a missing or worthless bid is not a tick. */
    method OnTicks(now: int, bid: Option<real>, spot: Option<real>) returns (sold: Option<Slice>)
      requires Valid()
      modifies this
      ensures Valid()
      ensures old(position).None? || bid.None? || bid.value <= 0.0 ==> position == old(position) && sold.None?
      ensures old(position).Some? && bid.Some? && bid.value > 0.0 ==>
        After(position, sold) == AfterTick(terms, old(position).value, now, bid.value, spot)
    {
      if position.None? || bid.None? || bid.value <= 0.0 {
        return None;
      }
      var tick := TickFor(terms, position.value, now, bid.value, spot);
      var decision := DecideTickExit(tick);
      position := Some(Ratcheted(position.value, tick));
      match decision {
        case Hold(_) =>
          sold := None;
        case ScaleOut(q, _) =>
          sold := SellSlice(q, SCALE_OUT, bid.value);
          if position.Some? {
            position := Some(Secured(terms, position.value));
          }
        case Exit(reason, q, _) =>
          sold := SellSlice(q, reason, bid.value);
      }
    }
  }
}
