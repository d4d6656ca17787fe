/** The terms a replayed position is opened on, the window it is signalled on, and the rows it leaves. */
module ReplayTerms {
  import opened Bars
  import opened Ladder
  import opened LadderFormulas
  import opened LadderLaws
  import opened Market
  import opened Osi
  import opened Replay
  import opened ReplayLaws
  import opened Seqs
  import opened Sizing
  import opened Votes

  // ----- Size -----

  /** The cash a laddered replay sizes by. */
  function CashOf(c: Config): real {
    if c.settledCash.Some? then c.settledCash.value else c.equity
  }

  /**
   * With the ladder a position is one contract or none, one exactly when it is paid for: out of the cash and the
   * risked share of equity, or, sized by its stop, out of the cash with the loss to the stop inside the limit.
   * With the older exits it is the most contracts the equity and its risked share pay for.
   */
  lemma SizesExactly(c: Config, entry: real, n: nat)
    requires entry > 0.0
    ensures c.profitLock.Some? ==>
      var stop := DisasterStopBid(entry, 1, CommissionForRoundTrip(1, c.commission), c.profitLock.value);
      && Sized(c, entry) <= 1
      && (Sized(c, entry) == 1 <==>
            if c.useRiskAtStop then
              entry - stop >= 0.01 && (entry - stop) * 100.0 <= c.maxRiskUsd && entry * 100.0 <= CashOf(c)
            else
              && entry * 100.0 <= CashOf(c) && entry * 100.0 <= c.equity * (c.riskPct / 100.0))
    ensures c.profitLock.None? ==>
      && Sized(c, entry) >= 0
      && (1 <= n <= Sized(c, entry) <==>
            1 <= n && n as real * (entry * 100.0) <= c.equity
            && n as real * (entry * 100.0) <= c.equity * (c.riskPct / 100.0))
  {
    hide DisasterStopBid, CommissionForRoundTrip, SizeAtRisk, SizePosition, ComputeBudget;
    if c.profitLock.Some? {
      var stop := DisasterStopBid(entry, 1, CommissionForRoundTrip(1, c.commission), c.profitLock.value);
      OneContractExactly(
        Risk(c.useRiskAtStop, c.maxRiskUsd, entry, Some(stop), CashOf(c), c.equity, c.riskPct));
    } else {
      OlderSizeIsTheMost(c.equity, c.equity, c.riskPct, entry, n);
    }
  }

  // ----- Levels -----

  /** A level so many ATRs away, with half a point for a missing or worthless ATR. */
  function AtrOf(rules: Rules, window: seq<Bar>): real {
    var atr := rules.atr(window);
    if atr.Some? && atr.value > 0.0 then atr.value else 0.5
  }

  function Percent(premium: real, pct: real): real {
    pct * premium / 100.0
  }

  predicate OlderTerms(c: Config, t: Ticket, spot: real, atr: real) {
    && t.stop == (if c.usePremiumStop then Some(Percent(t.entry, 100.0 - c.premiumStopPct)) else None)
    && t.levels.targetPremium
       == (if c.usePremiumTarget then Some(Percent(t.entry, 100.0 + c.premiumTargetPct)) else None)
    && t.levels.stopUnderlying.Some? && t.levels.targetUnderlying.Some?
    && Side(t.direction) * (spot - t.levels.stopUnderlying.value) == atr * c.stopAtrMult
    && Side(t.direction) * (t.levels.targetUnderlying.value - spot) == atr * c.targetAtrMult
  }

  lemma MovedPercent(premium: real, pct: real)
    ensures Moved(premium, pct) == Percent(premium, 100.0 + pct)
  {
  }

  lemma LevelsAreOlder(c: Config, direction: Direction, entry: real, spot: real, atr: Option<real>)
    requires c.profitLock.None?
    ensures var levels := LevelsFor(c, direction, entry, spot, atr);
      var used := if atr.Some? && atr.value > 0.0 then atr.value else 0.5;
      && levels.targetPremium
         == (if c.usePremiumTarget then Some(Percent(entry, 100.0 + c.premiumTargetPct)) else None)
      && levels.stopUnderlying.Some? && levels.targetUnderlying.Some?
      && Side(direction) * (spot - levels.stopUnderlying.value) == used * c.stopAtrMult
      && Side(direction) * (levels.targetUnderlying.value - spot) == used * c.targetAtrMult
  {
    MovedPercent(entry, c.premiumTargetPct);
    hide Moved, Percent;
  }

  lemma StopIsOlder(c: Config, entry: real, quantity: int)
    requires c.profitLock.None?
    ensures StopFor(c, entry, quantity)
         == if c.usePremiumStop then Some(Percent(entry, 100.0 - c.premiumStopPct)) else None
  {
    MovedPercent(entry, -c.premiumStopPct);
    assert 100.0 + -c.premiumStopPct == 100.0 - c.premiumStopPct;
    hide Moved, Percent;
  }

  /**
   * A position of the older exits opens with its stop and target at their percentages of the entry and its levels
   * their ATRs from the spot, the stop against it and the target its way; a laddered one with the disaster stop
   * of its size and no other level. Its size is what the sizing gives for the entry, its breakeven the entry and
   * a cent a contract.
   */
  lemma TermsAreSet(c: Config, rules: Rules, tape: Tape, i: nat, signal: Signal, s: Snapshot)
    requires i < |tape.bars| && TicketFor(c, rules, tape, i, signal, s).Some?
    ensures var t, bar := TicketFor(c, rules, tape, i, signal, s).value, tape.bars[i];
      && t.quantity == Sized(c, t.entry) >= 1 && t.barClose == bar.close
      && t.breakeven == t.entry + t.quantity as real / 100.0
      && (c.profitLock.None? ==>
            OlderTerms(c, t, OrElse(s.spot, bar.close), AtrOf(rules, LastBars(tape.bars[..i + 1], c.maxBars))))
      && (c.profitLock.Some? ==>
            t.levels == NO_LEVELS
            && t.stop == Some(DisasterStopBid(
                 t.entry, t.quantity, CommissionForRoundTrip(t.quantity, c.commission), c.profitLock.value)))
  {
    hide QuotesFromSnapshot, StrikeOf, Round2, LastBars, Sized, DisasterStopBid, CommissionForRoundTrip, LevelsFor,
      StopFor, Percent, Side;
    var t, bar := TicketFor(c, rules, tape, i, signal, s).value, tape.bars[i];
    LadderTerms(c, t.direction, t.entry, t.quantity, OrElse(s.spot, bar.close),
      rules.atr(LastBars(tape.bars[..i + 1], c.maxBars)));
    if c.profitLock.None? {
      LevelsAreOlder(c, t.direction, t.entry, OrElse(s.spot, bar.close),
        rules.atr(LastBars(tape.bars[..i + 1], c.maxBars)));
      StopIsOlder(c, t.entry, t.quantity);
    }
  }

  lemma LadderTerms(c: Config, direction: Direction, entry: real, quantity: int, spot: real, atr: Option<real>)
    ensures c.profitLock.Some? ==>
      && LevelsFor(c, direction, entry, spot, atr) == NO_LEVELS
      && StopFor(c, entry, quantity)
         == Some(DisasterStopBid(
              entry, quantity, CommissionForRoundTrip(quantity, c.commission), c.profitLock.value))
  {
    hide DisasterStopBid, CommissionForRoundTrip;
  }

  /** A signal opens a position exactly when a contract with an ask is picked and one of it can be afforded. */
  lemma OpensExactly(c: Config, rules: Rules, tape: Tape, i: nat, signal: Signal, s: Snapshot)
    requires i < |tape.bars|
    ensures var product := if tape.product.Some? then tape.product else s.underlying;
      var picked := rules.select(QuotesFromSnapshot(s.quotes, tape.expiration, product), signal.direction);
      TicketFor(c, rules, tape, i, signal, s).Some?
      <==>
      && picked.Some? && picked.value.ask.Some? && picked.value.ask.value != 0.0
      && Sized(c, Round2(picked.value.ask.value + c.paperSlippageCents / 100.0)) >= 1
  {
    hide QuotesFromSnapshot, StrikeOf, Round2, LastBars, Sized, LevelsFor, StopFor;
  }

  // ----- The window a signal looks at -----

  /** The newest bars, as many as asked for; all of them without a limit, and all but the first n for minus n. */
  lemma WindowIsTheNewest(seen: seq<Bar>, maxBars: Option<int>)
    ensures var window := LastBars(seen, maxBars);
      && |window| <= |seen| && window == seen[|seen| - |window|..]
      && (maxBars.None? || maxBars.value == 0 ==> |window| == |seen|)
      && (maxBars.Some? && maxBars.value > 0 ==>
            |window| == if maxBars.value <= |seen| then maxBars.value else |seen|)
      && (maxBars.Some? && maxBars.value < 0 ==>
            |window| == if -maxBars.value <= |seen| then |seen| + maxBars.value else 0)
  {
  }

  // ----- The older trail in the holding loop -----

  /** The trail a ticket is held under. */
  function TrailOf(c: Config, t: Ticket): TrailTerms {
    TrailTerms(t.entry, c.trailArmPct, c.trailPct, t.breakeven, Percent(t.entry, 100.0 + c.trailMinLockPct))
  }

  function LevelOf(h: Held): Level {
    Level(h.peak, h.stop, h.armed)
  }

  /** A bid moves what is held exactly as the trail moves; without a trail nothing of it moves. */
  lemma HeldFollowsTheTrail(c: Config, t: Ticket, h: Held, bid: real)
    ensures LevelOf(Trailed(c, t, h, bid))
         == if c.useTrailStop then TrailAfter(TrailOf(c, t), LevelOf(h), [bid]) else LevelOf(h)
    ensures var next := Trailed(c, t, h, bid);
      next.quantity == h.quantity && next.scaledOut == h.scaledOut && next.lastBid == h.lastBid
      && (next.source == TRAIL <==> if c.useTrailStop then next.armed else h.source == TRAIL)
  {
    hide RatchetPremiumStop, Moved, Percent;
    MovedPercent(t.entry, c.trailMinLockPct);
    var trail := TrailAt(TrailOf(c, t), LevelOf(h), bid);
    TrailSource(trail);
    assert trail == Trail(t.entry, bid, h.peak, h.stop, h.armed, c.trailArmPct, c.trailPct, t.breakeven,
      Moved(t.entry, c.trailMinLockPct));
    OneTickOfTrail(TrailOf(c, t), LevelOf(h), bid);
    hide TrailAfter, TrailAt, TrailOf;
  }

  lemma OneTickOfTrail(terms: TrailTerms, level: Level, bid: real)
    ensures var r := RatchetPremiumStop(TrailAt(terms, level, bid));
      TrailAfter(terms, level, [bid]) == Level(Some(r.peak), r.stop, r.armed)
  {
    hide RatchetPremiumStop;
    assert [bid][..0] == [] && TrailAfter(terms, level, []) == level;
  }

  lemma TrailSource(t: Trail)
    ensures RatchetPremiumStop(t).source == TRAIL <==> RatchetPremiumStop(t).armed
  {
  }

  // ----- Rows -----

  /** A recorded row is its sale: what was sold, when and why, and the money of it, to the cent. */
  lemma RowsAreTheirSales(etDateKey: string, rate: nat, t: Ticket, sale: Sale)
    requires sale.quantity >= 0 && WholeCents(t.entry) && WholeCents(sale.premium)
    ensures var row := RecordTrade(etDateKey, rate as real / 100.0, t, sale);
      && row.etDateKey == etDateKey && row.symbol == t.symbol && row.direction == t.direction
      && row.strategies == t.strategies && row.quantity == sale.quantity && row.exitReason == sale.reason
      && row.entryPremium == t.entry && row.exitPremium == sale.premium
      && row.openedAt == t.openedAt && row.closedAt == sale.at && row.openedAt + row.holdMs == row.closedAt
      && row.grossPnl
         == sale.premium * 100.0 * sale.quantity as real - t.entry * 100.0 * sale.quantity as real
      && row.fees == (2 * sale.quantity * rate) as real / 100.0
      && row.netPnl == row.grossPnl - row.fees
  {
    RowIsExact(etDateKey, rate, t, sale);
    CommissionIsLinear(sale.quantity, rate);
    var e: int :| InCents(t.entry, e);
    var p: int :| InCents(sale.premium, p);
    GrossInCents(sale.premium, t.entry, p, e, sale.quantity);
    WholeDollars((p - e) * sale.quantity);
    hide Round2, CommissionForRoundTrip, GrossOf;
  }

  lemma WholeDollars(dollars: int)
    ensures Round2(dollars as real) == dollars as real
  {
    assert dollars as real == (100 * dollars) as real / 100.0;
    Round2Cents(100 * dollars);
    hide Round2;
  }
}
