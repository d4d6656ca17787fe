/** What the ladder's numbers and decisions mean, written out beside the code that computes them. */
module LadderFormulas {
  import opened Ladder
  import opened LadderLaws
  import opened Market
  import opened Seqs

  // ----- Returns -----

  /** The percentage is of what the contracts cost, net of both commissions; nothing bought for nothing returns. */
  lemma ReturnIsNetOfFees(bid: real, entry: real, quantity: nat, commission: real)
    requires quantity >= 1
    ensures entry > 0.0 ==>
      ReturnOnCostPct(bid, entry, quantity, commission) / 100.0 * (entry * 100.0 * quantity as real)
      == bid * 100.0 * quantity as real - entry * 100.0 * quantity as real - commission
    ensures entry <= 0.0 ==> ReturnOnCostPct(bid, entry, quantity, commission) == 0.0
  {
    var q := quantity as real;
    assert Qty(quantity) == q;
    var cost := entry * 100.0 * q;
    if entry > 0.0 {
      assert cost > 0.0;
      var net := (bid - entry) * 100.0 * q - commission;
      Cancel(net, cost);
      assert ReturnOnCostPct(bid, entry, quantity, commission) / 100.0 == net / cost;
    } else {
      NotPositive(entry, 100.0 * q);
      assert cost == entry * (100.0 * q);
    }
  }

  lemma NotPositive(x: real, y: real)
    requires x <= 0.0 && y >= 0.0
    ensures x * y <= 0.0
  {
  }

  /** Sold at its disaster level, to half a cent, a position has lost exactly the stop percentage. */
  lemma DisasterLosesTheStopPercent(terms: Terms)
    requires terms.entry > 0.0
    ensures ReturnOnCostPct(Disaster(terms) - 0.005, terms.entry, terms.quantity, terms.commission)
         <= -terms.ladder.stopPct
         <= ReturnOnCostPct(Disaster(terms) + 0.005, terms.entry, terms.quantity, terms.commission)
  {
    hide ReturnOnCostPct, BidForReturnPct, Round2;
    var exact := BidForReturnPct(-terms.ladder.stopPct, terms.entry, terms.quantity, terms.commission);
    Round2Bounds(exact);
    ReturnAndBidAreInverse(-terms.ladder.stopPct, terms.entry, terms.quantity, terms.commission);
    ReturnIsMonotone(Disaster(terms) - 0.005, exact, terms.entry, terms.quantity, terms.commission);
    ReturnIsMonotone(exact, Disaster(terms) + 0.005, terms.entry, terms.quantity, terms.commission);
  }

  // ----- The older trail -----

  function Share(terms: TrailTerms, peak: real): real {
    (100.0 - terms.trailPct) * peak / 100.0
  }

  lemma ShareIsLess(terms: TrailTerms, peak: real)
    ensures Share(terms, peak) == peak * (1.0 - terms.trailPct / 100.0)
  {
  }

  /** Where an armed trail wants its stop under a peak: a share of it, or a floor, but a cent under it. */
  function TrailLevel(terms: TrailTerms, peak: real): real {
    var share := Share(terms, peak);
    var floor := if terms.breakevenBid >= terms.minLockBid then terms.breakevenBid else terms.minLockBid;
    var wanted := if share >= floor then share else floor;
    if wanted <= peak - 0.01 then wanted else peak - 0.01
  }

  lemma LevelGrows(terms: TrailTerms, low: real, high: real)
    requires low <= high && terms.trailPct <= 100.0
    ensures TrailLevel(terms, low) <= TrailLevel(terms, high)
  {
    assert (100.0 - terms.trailPct) * low <= (100.0 - terms.trailPct) * high by {
      NotPositive(low - high, 100.0 - terms.trailPct);
    }
  }

  predicate Arms(terms: TrailTerms, bid: real) {
    100.0 * bid >= (100.0 + terms.trailArmPct) * terms.entry
  }

  lemma ArmsAbove(terms: TrailTerms, bid: real)
    ensures Arms(terms, bid) <==> bid >= terms.entry * (1.0 + terms.trailArmPct / 100.0)
  {
    assert terms.entry * (1.0 + terms.trailArmPct / 100.0) * 100.0 == (100.0 + terms.trailArmPct) * terms.entry;
  }

  /** One tick of the trail, by its share and its arming bid. */
  lemma TrailTick(terms: TrailTerms, level: Level, bid: real)
    ensures var r := RatchetPremiumStop(TrailAt(terms, level, bid));
      var peak := MaxR(OrElse(level.peak, terms.entry), bid);
      && r.peak == peak && r.armed == (level.armed || Arms(terms, bid))
      && r.stop == if !r.armed then level.stop
           else Some(if level.stop.None? then TrailLevel(terms, peak)
                     else MaxR(level.stop.value, TrailLevel(terms, peak)))
  {
    hide Share, Arms;
    ArmsAbove(terms, bid);
    ShareIsLess(terms, MaxR(OrElse(level.peak, terms.entry), bid));
  }

  lemma OneTrailTick(terms: TrailTerms, level: Level, bid: real)
    ensures var after := TrailAfter(terms, level, [bid]);
      var peak := MaxR(OrElse(level.peak, terms.entry), bid);
      && after.peak == Some(peak) && after.armed == (level.armed || Arms(terms, bid))
      && after.stop == if !after.armed then level.stop
           else Some(if level.stop.None? then TrailLevel(terms, peak)
                     else MaxR(level.stop.value, TrailLevel(terms, peak)))
  {
    hide RatchetPremiumStop, TrailLevel, Arms;
    assert [bid][..0] == [] && TrailAfter(terms, level, []) == level;
    TrailTick(terms, level, bid);
  }

  lemma TrailLast(terms: TrailTerms, level: Level, bids: seq<real>)
    requires bids != []
    ensures TrailAfter(terms, level, bids)
         == TrailAfter(terms, TrailAfter(terms, level, bids[..|bids| - 1]), [bids[|bids| - 1]])
  {
    hide RatchetPremiumStop;
    assert [bids[|bids| - 1]][..0] == [];
  }

  /**
   * Over any bids the trail arms on the first that is up by the arming percentage and stays armed; from then on
   * its stop is the level of the highest bid of the run, or the stop it started with when that is higher.
   */
  lemma {:induction false} TrailStopIsTheLevelOfThePeak(terms: TrailTerms, level: Level, bids: seq<real>)
    requires bids != [] && terms.trailPct <= 100.0
    requires level.armed ==>
      level.stop.Some? && level.stop.value >= TrailLevel(terms, OrElse(level.peak, terms.entry))
    ensures var after := TrailAfter(terms, level, bids);
      var peak := RunningMax(OrElse(level.peak, terms.entry), bids);
      && (after.armed <==> level.armed || exists i :: 0 <= i < |bids| && Arms(terms, bids[i]))
      && after.peak == Some(peak)
      && after.stop == if !after.armed then level.stop
           else Some(if level.stop.None? then TrailLevel(terms, peak)
                     else MaxR(level.stop.value, TrailLevel(terms, peak)))
  {
    hide TrailAfter, TrailLevel, Arms;
    var init, bid := bids[..|bids| - 1], bids[|bids| - 1];
    var start := OrElse(level.peak, terms.entry);
    TrailLast(terms, level, bids);
    if init == [] {
      assert bids == [bid];
      OneTrailTick(terms, level, bid);
      OneIsMax(start, bid);
    } else {
      TrailStopIsTheLevelOfThePeak(terms, level, init);
      OneTrailTick(terms, TrailAfter(terms, level, init), bid);
      LevelGrows(terms, RunningMax(start, init), RunningMax(start, bids));
      assert forall i :: 0 <= i < |init| ==> bids[i] == init[i];
    }
  }

  lemma OneIsMax(start: real, bid: real)
    ensures RunningMax(start, [bid]) == MaxR(start, bid)
  {
    assert [bid][..0] == [] && RunningMax(start, []) == start;
  }

  // ----- Exits -----

  /** Up for a call, down for a put. */
  function Side(direction: Direction): real {
    if direction == CALL then 1.0 else -1.0
  }

  predicate AtStop(bid: Option<real>, stop: Option<real>) {
    bid.Some? && stop.Some? && bid.value <= stop.value
  }

  predicate AtUnderlyingStop(direction: Direction, spot: real, levels: Levels) {
    levels.stopUnderlying.Some? && Side(direction) * (spot - levels.stopUnderlying.value) <= 0.0
  }

  predicate AtTarget(bid: Option<real>, levels: Levels) {
    bid.Some? && levels.targetPremium.Some? && bid.value >= levels.targetPremium.value
  }

  predicate AtUnderlyingTarget(direction: Direction, spot: real, levels: Levels) {
    levels.targetUnderlying.Some? && Side(direction) * (spot - levels.targetUnderlying.value) >= 0.0
  }

  /** A soft exit gives the first reason that holds, in this order, levels being reached at equality. */
  lemma SoftExitsInOrder(
    direction: Direction, spot: real, bid: Option<real>, stop: Option<real>, source: Source, levels: Levels)
    ensures var exit := DecideSoftExit(Some(direction), spot, bid, stop, source, levels);
      && (exit == Some(TRAIL_STOP) <==> AtStop(bid, stop) && source == TRAIL)
      && (exit == Some(PREMIUM_STOP) <==> AtStop(bid, stop) && source == INITIAL)
      && (exit == Some(UNDERLYING_STOP) <==> !AtStop(bid, stop) && AtUnderlyingStop(direction, spot, levels))
      && (exit == Some(PREMIUM_TARGET) <==>
            !AtStop(bid, stop) && !AtUnderlyingStop(direction, spot, levels) && AtTarget(bid, levels))
      && (exit == Some(UNDERLYING_TARGET) <==>
            && !AtStop(bid, stop) && !AtUnderlyingStop(direction, spot, levels) && !AtTarget(bid, levels)
            && AtUnderlyingTarget(direction, spot, levels))
      && (exit == None <==>
            && !AtStop(bid, stop) && !AtUnderlyingStop(direction, spot, levels) && !AtTarget(bid, levels)
            && !AtUnderlyingTarget(direction, spot, levels))
  {
  }

  /** When no new high is on record the clock counts from the fill. */
  lemma UnknownHighIsTheFill(entry: real, lock: Lock, c: Clock)
    ensures TimeStopDue(entry, lock, c.(peakAt := None)) == TimeStopDue(entry, lock, c.(peakAt := c.openedAt))
  {
  }

  /** Half of two contracts or more is sold, once, at ten percent up, unless the tick leaves for another reason. */
  lemma ScalesOutExactly(t: Tick)
    ensures var decision := DecideTickExit(t);
      && (decision.ScaleOut? <==>
            && !decision.Exit? && t.useScaleOut && !t.scaledOut && t.quantity >= 2 && t.entry > 0.0
            && 10.0 * t.lock.bid >= 11.0 * t.entry)
      && (decision.ScaleOut? ==> 2 * decision.quantity <= t.quantity < 2 * decision.quantity + 2)
      && (decision.Exit? ==> decision.quantity == t.quantity)
  {
    hide RatchetProfitLock, TimeStopDue, DecideSoftExit;
  }
}
