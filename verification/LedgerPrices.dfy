/** The prices the ledger trades at: every entry and every sale of a run, against the quote it was made on. */
module LedgerPrices {
  import opened Market
  import opened Seqs
  import opened Ledger

  /** Sold at a bid: a slippage under it, but for at least a cent. */
  predicate SoldUnder(s: Settings, bid: int, price: int) {
    price >= 1 && (bid - price == s.slippageCents || (price == 1 && bid - price <= s.slippageCents))
  }

  /** The row of a sale: its money follows from its prices. */
  predicate RowAddsUp(s: Settings, p: Position, now: int, t: Trade) {
    && t.positionId == p.id && t.direction == p.direction && t.entryPrice == p.entryPrice && t.closedAt == now
    && t.grossPnl == (t.exitPrice - t.entryPrice) * 100 * t.quantity
    && t.fees == 2 * s.feeCents * t.quantity
    && t.netPnl == t.grossPnl - t.fees
  }

  /** One row was written for a sale at `bid`, and the cash moved by what it took in. */
  predicate SoldAt(s: Settings, a: Account, b: Account, now: int, bid: int, quantity: nat, reason: Reason) {
    && a.position.Some? && |b.trades| == |a.trades| + 1 && b.trades[..|a.trades|] == a.trades
    && var t := b.trades[|a.trades|];
    && t.quantity == quantity >= 1 && t.reason == reason
    && SoldUnder(s, bid, t.exitPrice) && RowAddsUp(s, a.position.value, now, t)
    && b.cash == a.cash + t.exitPrice * 100 * quantity - s.feeCents * quantity
  }

  lemma SalePays(s: Settings, a: Account, now: int, quantity: nat, reason: Reason, bid: int)
    requires a.position.Some? && 1 <= quantity <= a.position.value.quantity
    ensures SoldAt(s, a, SellSpec(s, a, now, quantity, reason, bid), now, bid, quantity, reason)
  {
    var b := SellSpec(s, a, now, quantity, reason, bid);
    assert b.trades == a.trades + [MakeTrade(s, a.position.value, now, quantity, reason, bid)];
    FeesOf(s, quantity);
    hide Proceeds;
    assert b.cash == a.cash + Proceeds(s, bid, quantity);
    TakesIn(s, bid, quantity);
  }

  lemma FeesOf(s: Settings, quantity: nat)
    ensures CommissionForRoundTrip(s, quantity) == 2 * s.feeCents * quantity
  {
  }

  lemma TakesIn(s: Settings, bid: int, quantity: nat)
    ensures Proceeds(s, bid, quantity) == ExitFill(s, bid) * 100 * quantity - s.feeCents * quantity
  {
  }

  /** What is sold on a tick, and for what reason. */
  function TickSells(p: Position, decision: Decision): (nat, Reason) {
    match decision
    case Hold => (0, SCALE_OUT)
    case ScaleOut => (p.quantity / 2, SCALE_OUT)
    case Exit(reason) => (p.quantity, reason)
  }

  lemma TickPays(s: Settings, a: Account, now: int, bid: int, decision: Decision)
    requires a.position.Some? && a.position.value.quantity >= 1 && bid > 0
    ensures var (quantity, reason) := TickSells(a.position.value, decision);
      var b := TickSpec(s, a, now, bid, decision);
      if quantity == 0 then b.trades == a.trades && b.cash == a.cash
      else SoldAt(s, a, b, now, bid, quantity, reason)
  {
    hide SellSpec;
    var p := a.position.value;
    var seen := a.(position := Some(p.(peakBid := Max(p.peakBid, bid))));
    match decision {
      case Hold =>
      case ScaleOut =>
        if p.quantity / 2 >= 1 {
          SalePays(s, seen, now, p.quantity / 2, SCALE_OUT, bid);
        } else {
          NothingSold(s, seen, now, SCALE_OUT, bid);
        }
      case Exit(reason) => SalePays(s, seen, now, p.quantity, reason, bid);
    }
  }

  lemma NothingSold(s: Settings, a: Account, now: int, reason: Reason, bid: int)
    requires a.position.Some?
    ensures SellSpec(s, a, now, 0, reason, bid) == a
  {
  }

  lemma {:induction false} QuantityIsPositive(s: Settings, calls: seq<Call>)
    ensures Run(s, calls).position.Some? ==> Run(s, calls).position.value.quantity >= 1
  {
    if calls != [] {
      QuantityIsPositive(s, calls[..|calls| - 1]);
    }
    hide Proceeds, EntryCost, MakeTrade;
  }

  // ----- The best bid a position was shown -----

  /** Call `i` bought the open position, and `best` is the highest of its bid and the positive bids ticked since. */
  ghost predicate BestSince(s: Settings, calls: seq<Call>, i: nat, best: int) {
    && i < |calls| && calls[i].op.Enter?
    && Run(s, calls[..i]).position.None? && Run(s, calls[..i + 1]).position.Some?
    && best >= calls[i].op.bid
    && (forall j :: i < j < |calls| && calls[j].op.Tick? && calls[j].op.bid > 0 ==> best >= calls[j].op.bid)
    && (best == calls[i].op.bid
        || exists j :: i < j < |calls| && calls[j].op.Tick? && calls[j].op.bid == best && best > 0)
  }

  lemma PeakMoves(s: Settings, a: Account, c: Call)
    requires Step(s, a, c).position.Some?
    ensures a.position.None? ==> c.op.Enter? && Step(s, a, c).position.value.peakBid == c.op.bid
    ensures a.position.Some? ==>
      Step(s, a, c).position.value.peakBid
      == if c.op.Tick? && c.op.bid > a.position.value.peakBid && c.op.bid > 0 then c.op.bid
         else a.position.value.peakBid
  {
    hide Proceeds, EntryCost, MakeTrade;
  }

  lemma {:induction false} PeakIsBestBid(s: Settings, calls: seq<Call>)
    requires Run(s, calls).position.Some?
    ensures exists i :: BestSince(s, calls, i, Run(s, calls).position.value.peakBid)
  {
    var n := |calls| - 1;
    var init, c := calls[..n], calls[n];
    var a := Run(s, init);
    PeakMoves(s, a, c);
    hide Step;
    assert calls[..n + 1] == calls;
    if a.position.None? {
      assert BestSince(s, calls, n, c.op.bid);
    } else {
      PeakIsBestBid(s, init);
      var i :| BestSince(s, init, i, a.position.value.peakBid);
      BestGrows(s, calls, i, a.position.value.peakBid);
    }
  }

  lemma BestGrows(s: Settings, calls: seq<Call>, i: nat, best: int)
    requires calls != [] && BestSince(s, calls[..|calls| - 1], i, best)
    ensures var c := calls[|calls| - 1];
      BestSince(s, calls, i, if c.op.Tick? && c.op.bid > best && c.op.bid > 0 then c.op.bid else best)
  {
    hide Run;
    var init := calls[..|calls| - 1];
    assert init[..i] == calls[..i] && init[..i + 1] == calls[..i + 1];
    if exists j :: i < j < |init| && init[j].op.Tick? && init[j].op.bid == best && best > 0 {
      var j :| i < j < |init| && init[j].op.Tick? && init[j].op.bid == best && best > 0;
      assert calls[j] == init[j];
    }
    assert forall j :: 0 <= j < |init| ==> calls[j] == init[j];
  }

  // ----- Every sale and every entry of a run -----

  /**
   * Over every run a sale on a tick is made a slippage under that tick's bid, at least for a cent, of the slice
   * the decision names; nothing else is sold on it.
   */
  lemma TickSalesPayTheSlippage(s: Settings, calls: seq<Call>, c: Call)
    requires c.op.Tick?
    ensures var a, b := Run(s, calls), Step(s, Run(s, calls), c);
      if a.position.None? || c.op.bid <= 0 || TickSells(a.position.value, c.op.decision).0 == 0
      then b.trades == a.trades && b.cash == a.cash
      else
        SoldAt(s, a, b, c.now, c.op.bid, TickSells(a.position.value, c.op.decision).0,
          TickSells(a.position.value, c.op.decision).1)
  {
    QuantityIsPositive(s, calls);
    var a := Run(s, calls);
    hide Run;
    if a.position.Some? && c.op.bid > 0 {
      TickPays(s, a, c.now, c.op.bid, c.op.decision);
    }
  }

  /**
   * Over every run flattening sells the whole position a slippage under the best bid it was shown since it was
   * bought, or under its own entry price when that bid is not positive.
   */
  lemma FlattenSellsAtTheBest(s: Settings, calls: seq<Call>, c: Call)
    requires c.op.Flatten? && Run(s, calls).position.Some?
    ensures var a, b := Run(s, calls), Step(s, Run(s, calls), c);
      exists i, best :: BestSince(s, calls, i, best)
        && SoldAt(s, a, b, c.now, if best > 0 then best else a.position.value.entryPrice,
             a.position.value.quantity, c.op.why)
  {
    QuantityIsPositive(s, calls);
    PeakIsBestBid(s, calls);
    var a := Run(s, calls);
    hide Run, BestSince;
    var p := a.position.value;
    var i :| BestSince(s, calls, i, p.peakBid);
    SalePays(s, a, c.now, p.quantity, c.op.why, if p.peakBid > 0 then p.peakBid else p.entryPrice);
    hide SellSpec, SoldAt;
  }

  /** Over every run an entry is bought a slippage over its ask, out of cash that was there, and nothing is sold. */
  lemma EntriesPayTheSlippage(s: Settings, calls: seq<Call>, c: Call)
    requires |Step(s, Run(s, calls), c).entries| > |Run(s, calls).entries|
    ensures var a, b := Run(s, calls), Step(s, Run(s, calls), c);
      && c.op.Enter? && c.op.ask > 0 && c.op.quantity >= 1
      && b.position.Some? && var p := b.position.value;
      && p.entryPrice - c.op.ask == s.slippageCents
      && p.quantity == p.originalQuantity == c.op.quantity && p.direction == c.op.direction
      && b.entries == a.entries + [Entry(c.op.direction, c.op.quantity, p.entryPrice, c.now)]
      && a.cash - b.cash == p.entryPrice * 100 * p.quantity + s.feeCents * p.quantity && b.cash >= 0
      && b.trades == a.trades
  {
    hide Run, MayEnter, SellSpec;
    var a := Run(s, calls);
    if c.op.Enter? {
      CostsOf(s, c.op.ask, c.op.quantity);
      hide EntryCost;
    } else {
      OnlyEntriesEnter(s, a, c);
    }
  }

  lemma CostsOf(s: Settings, ask: int, quantity: nat)
    ensures EntryCost(s, ask, quantity) == (ask + s.slippageCents) * 100 * quantity + s.feeCents * quantity
  {
  }

  lemma OnlyEntriesEnter(s: Settings, a: Account, c: Call)
    requires !c.op.Enter?
    ensures Step(s, a, c).entries == a.entries
  {
    hide Proceeds, MakeTrade;
  }

  /** More slippage never raises what a sale takes in, and leaves it alone only where a cent is all it makes. */
  lemma MoreSlippagePaysLess(s: Settings, bid: int, quantity: nat, more: nat)
    requires quantity >= 1 && more >= 1
    ensures var worse := s.(slippageCents := s.slippageCents + more);
      && Proceeds(worse, bid, quantity) <= Proceeds(s, bid, quantity)
      && (Proceeds(worse, bid, quantity) == Proceeds(s, bid, quantity) <==> bid - s.slippageCents <= 1)
  {
    var worse := s.(slippageCents := s.slippageCents + more);
    var here, there := ExitFill(s, bid), ExitFill(worse, bid);
    TakesIn(s, bid, quantity);
    TakesIn(worse, bid, quantity);
    assert here * 100 * quantity - there * 100 * quantity == (here - there) * (100 * quantity);
    if here > there {
      Grows(here - there, 100 * quantity);
    }
    hide Proceeds;
  }

  lemma Grows(x: int, y: int)
    requires x >= 1 && y >= 1
    ensures x * y >= 1
  {
  }

  // ----- The start and its resets -----

  /**
   * The account starts with ten thousand dollars. A reset while flat puts it back there, and records what that
   * took or gave exactly when it is something; with a position open it does nothing.
   */
  lemma ResetsRestoreTheStart(s: Settings, calls: seq<Call>, c: Call)
    requires c.op.Reset?
    ensures Run(s, []).cash == Run(s, []).equity == 1_000_000
    ensures var a, b := Run(s, calls), Step(s, Run(s, calls), c);
      && b.position == a.position && b.trades == a.trades && b.entries == a.entries
      && (a.position.Some? ==> b == a)
      && (a.position.None? ==>
          && b.cash == b.equity == 1_000_000
          && b.marks == if a.equity == 1_000_000 then a.marks
             else a.marks + [Mark(TOP_UP, c.now, 1_000_000 - a.equity, 1_000_000)])
  {
    hide Run;
    assert Run(s, []) == Opened() by { RunOfNothing(s); }
  }

  lemma RunOfNothing(s: Settings)
    ensures Run(s, []) == Opened()
  {
  }
}
