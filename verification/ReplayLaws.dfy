/** What every replay keeps: whole positions, one at a time, a cooldown apart, entered after the bar. */
module ReplayLaws {
  import opened Bars
  import opened Ladder
  import opened LadderLaws
  import opened Market
  import opened Osi
  import opened Replay
  import opened Seqs
  import opened Sizing
  import opened Votes

  // ----- One position -----

  function QuantityOf(): Sale -> int {
    (s: Sale) => s.quantity
  }

  /**
   * Slices of at least one contract that add up; a scale-out comes first and at most once, and only full sales
   * close.
   */
  predicate SoldWhole(sales: seq<Sale>, quantity: int, scaledOut: bool) {
    && 1 <= |sales| <= (if scaledOut then 1 else 2)
    && (forall k :: 0 <= k < |sales| ==> sales[k].quantity >= 1)
    && (forall k :: 0 <= k < |sales| ==> (sales[k].reason == SCALE_OUT <==> k < |sales| - 1))
    && SumOf(sales, QuantityOf()) == quantity
  }

  lemma OneSaleIsWhole(s: Sale, scaledOut: bool)
    requires s.quantity >= 1 && s.reason != SCALE_OUT
    ensures SoldWhole([s], s.quantity, scaledOut)
  {
    SumOfOne(s, QuantityOf());
  }

  /** What a look can do to the quantity: keep it, split it once, or sell all of it. */
  lemma LookSells(c: Config, rules: Rules, t: Ticket, h: Held, s: Snapshot)
    requires h.quantity >= 1
    ensures var look := LookAt(c, rules, t, h, s);
      && (look.Leave? ==> look.sale.quantity == h.quantity && look.sale.reason != SCALE_OUT)
      && (look.Stay? && look.sold.None? ==> look.held.quantity == h.quantity && look.held.scaledOut == h.scaledOut)
      && (look.Stay? && look.sold.Some? ==>
          && !h.scaledOut && look.held.scaledOut && look.sold.value.reason == SCALE_OUT
          && look.sold.value.quantity == h.quantity / 2 >= 1
          && look.held.quantity == h.quantity - look.sold.value.quantity >= 1)
  {
    hide RatchetProfitLock, RatchetPremiumStop, TimeStopDue, FirstBid;
  }

  lemma {:induction false} PositionSellsWhole(c: Config, rules: Rules, t: Ticket, h: Held, snaps: seq<Snapshot>, i: nat)
    requires snaps != [] && i <= |snaps| && h.quantity >= 1
    ensures SoldWhole(Watch(c, rules, t, h, snaps, i), h.quantity, h.scaledOut)
    decreases |snaps| - i
  {
    hide LookAt, SoldWhole;
    if i == |snaps| {
      OneSaleIsWhole(EndSale(t, h, snaps[|snaps| - 1]), h.scaledOut);
    } else {
      LookSells(c, rules, t, h, snaps[i]);
      var look := LookAt(c, rules, t, h, snaps[i]);
      if look.Leave? {
        OneSaleIsWhole(look.sale, h.scaledOut);
      } else {
        PositionSellsWhole(c, rules, t, look.held, snaps, i + 1);
        var rest := Watch(c, rules, t, look.held, snaps, i + 1);
        if look.sold.Some? {
          ScaledThenSold(look.sold.value, rest, h.quantity);
        } else {
          assert AsSeq(look.sold) + rest == rest;
        }
      }
    }
  }

  lemma ScaledThenSold(first: Sale, rest: seq<Sale>, quantity: int)
    requires first.quantity >= 1 && first.reason == SCALE_OUT
    requires SoldWhole(rest, quantity - first.quantity, true)
    ensures SoldWhole([first] + rest, quantity, false)
  {
    SumOfCons(first, rest, QuantityOf());
  }

  // ----- All positions -----

  /** The position is what its signal bar and its entry snapshot make it. */
  predicate Genuine(c: Config, rules: Rules, tape: Tape, p: Position)
    requires tape.snaps != []
  {
    var e := FirstFrom(tape.snaps, p.barAt + tape.closeMs);
    && e < |tape.snaps|
    && p.ticket.openedAt == tape.snaps[e].at
    && p.ticket.quantity >= 1
    && (c.profitLock.Some? ==> p.ticket.quantity == 1)
    && p.sales == Watch(c, rules, p.ticket, OnOpen(c, p.ticket), tape.snaps, e + 1)
  }

  lemma TicketIsGenuine(c: Config, rules: Rules, tape: Tape, i: nat, signal: Signal, s: Snapshot)
    requires i < |tape.bars| && TicketFor(c, rules, tape, i, signal, s).Some?
    ensures var t := TicketFor(c, rules, tape, i, signal, s).value;
      && t.openedAt == s.at && t.quantity >= 1
      && (c.profitLock.Some? ==> t.quantity == 1)
  {
    hide QuotesFromSnapshot, StrikeOf, Round2, StopFor, LevelsFor, LastBars, ComputeBudget, SizePosition,
      DisasterStopBid;
  }

  /** Positions in the order the scan opened them, none before bar `i` or before the last exit. */
  ghost predicate InSequence(c: Config, rules: Rules, tape: Tape, ps: seq<Position>, lastExitAt: Option<int>)
    requires tape.snaps != []
  {
    && (forall k :: 0 <= k < |ps| ==> Genuine(c, rules, tape, ps[k]) && ps[k].sales != [])
    && (forall k :: 0 <= k < |ps| ==> Spaced(c, lastExitAt, ps[k]))
    && (forall j, k :: 0 <= j < k < |ps| && ps[j].sales != [] ==> Spaced(c, Some(ExitAt(ps[j].sales)), ps[k]))
  }

  /** The signal bar starts after the earlier exit, and at least the cooldown after it. */
  predicate Spaced(c: Config, exitAt: Option<int>, p: Position) {
    exitAt.Some? ==> p.barAt > exitAt.value && p.barAt - exitAt.value >= c.cooldownMins * 60_000
  }

  lemma SignalIsCooled(c: Config, rules: Rules, tape: Tape, i: nat, lastExitAt: Option<int>)
    requires i < |tape.bars| && SignalAt(c, rules, tape, i, lastExitAt).Some?
    ensures Cooled(c, tape.bars[i].chartTime, lastExitAt)
  {
  }

  lemma OpenedIsGenuine(c: Config, rules: Rules, tape: Tape, i: nat, signal: Signal)
    requires Ordered(tape) && i < |tape.bars|
    requires FirstFrom(tape.snaps, tape.bars[i].chartTime + tape.closeMs) < |tape.snaps|
    ensures var e := FirstFrom(tape.snaps, tape.bars[i].chartTime + tape.closeMs);
      OpenedAt(c, rules, tape, i, signal, e).Some? ==>
        && Genuine(c, rules, tape, OpenedAt(c, rules, tape, i, signal, e).value)
        && OpenedAt(c, rules, tape, i, signal, e).value.barAt == tape.bars[i].chartTime
  {
    hide TicketFor, Watch, FirstFrom, Ordered;
    var e := FirstFrom(tape.snaps, tape.bars[i].chartTime + tape.closeMs);
    if TicketFor(c, rules, tape, i, signal, tape.snaps[e]).Some? {
      TicketIsGenuine(c, rules, tape, i, signal, tape.snaps[e]);
    }
  }

  /** Bars from `i` on start after a time. */
  predicate AllAfter(bars: seq<Bar>, i: nat, at: int) {
    forall k :: i <= k < |bars| ==> bars[k].chartTime > at
  }

  lemma ResumedBarsAreAfter(bars: seq<Bar>, at: int)
    requires BarsInOrder(bars)
    ensures AllAfter(bars, FirstAfter(bars, at), at)
  {
    var k := FirstAfter(bars, at);
    if k < |bars| {
      assert forall j :: k <= j < |bars| ==> bars[k].chartTime <= bars[j].chartTime;
    }
  }

  lemma SequenceGrows(c: Config, rules: Rules, tape: Tape, p: Position, rest: seq<Position>, lastExitAt: Option<int>)
    requires tape.snaps != [] && p.sales != []
    requires Genuine(c, rules, tape, p) && Spaced(c, lastExitAt, p)
    requires InSequence(c, rules, tape, rest, Some(ExitAt(p.sales)))
    requires lastExitAt.Some? ==> lastExitAt.value <= ExitAt(p.sales)
    ensures InSequence(c, rules, tape, [p] + rest, lastExitAt)
  {
    hide Genuine;
    var all := [p] + rest;
    forall k | 0 <= k < |all|
      ensures Genuine(c, rules, tape, all[k]) && all[k].sales != [] && Spaced(c, lastExitAt, all[k])
    {
      if k > 0 {
        assert all[k] == rest[k - 1];
        assert Spaced(c, Some(ExitAt(p.sales)), rest[k - 1]);
      }
    }
    forall j, k | 0 <= j < k < |all| && all[j].sales != [] ensures Spaced(c, Some(ExitAt(all[j].sales)), all[k]) {
      assert all[k] == rest[k - 1];
      if j > 0 {
        assert all[j] == rest[j - 1];
      }
    }
  }

  lemma {:induction false} ScanIsSequenced(c: Config, rules: Rules, tape: Tape, i: nat, lastExitAt: Option<int>)
    requires Ordered(tape) && i <= |tape.bars|
    requires lastExitAt.Some? ==> AllAfter(tape.bars, i, lastExitAt.value)
    ensures InSequence(c, rules, tape, Scan(c, rules, tape, i, lastExitAt), lastExitAt)
    decreases |tape.bars| - i
  {
    hide Scan, SignalAt, OpenedAt, FirstFrom, FirstAfter, InSequence, Genuine;
    if i == |tape.bars| {
      ScanEnds(c, rules, tape, lastExitAt);
      NothingIsSequenced(c, rules, tape, lastExitAt);
    } else {
      ScanUnfolds(c, rules, tape, i, lastExitAt);
      var signal := SignalAt(c, rules, tape, i, lastExitAt);
      var e := FirstFrom(tape.snaps, tape.bars[i].chartTime + tape.closeMs);
      if signal.Some? && e == |tape.snaps| {
        NothingIsSequenced(c, rules, tape, lastExitAt);
      } else if signal.Some? && OpenedAt(c, rules, tape, i, signal.value, e).Some? {
        var p := OpenedAt(c, rules, tape, i, signal.value, e).value;
        OpenedIsGenuine(c, rules, tape, i, signal.value);
        SignalIsCooled(c, rules, tape, i, lastExitAt);
        var exitAt := ExitAt(p.sales);
        ResumedBarsAreAfter(tape.bars, exitAt);
        ScanIsSequenced(c, rules, tape, FirstAfter(tape.bars, exitAt), Some(exitAt));
        FirstFromIsLate(tape.snaps, tape.bars[i].chartTime + tape.closeMs);
        SequenceGrows(c, rules, tape, p, Scan(c, rules, tape, FirstAfter(tape.bars, exitAt), Some(exitAt)), lastExitAt);
      } else {
        ScanIsSequenced(c, rules, tape, i + 1, lastExitAt);
      }
    }
  }

  lemma FirstFromIsLate(snaps: seq<Snapshot>, at: int)
    ensures FirstFrom(snaps, at) < |snaps| ==> snaps[FirstFrom(snaps, at)].at >= at
  {
  }

  lemma NothingIsSequenced(c: Config, rules: Rules, tape: Tape, lastExitAt: Option<int>)
    requires tape.snaps != []
    ensures InSequence(c, rules, tape, [], lastExitAt)
  {
  }

  lemma PositionsAreSequenced(session: Session, c: Config, rules: Rules)
    requires ValidConfig(c) && Positions(session, c, rules) != []
    ensures TapeOf(session, c, rules).Some? && Ordered(TapeOf(session, c, rules).value)
    ensures InSequence(c, rules, TapeOf(session, c, rules).value, Positions(session, c, rules), None)
  {
    hide TapeOf, Scan, InSequence, Ordered;
    SortedTape(session, c, rules);
    ScanIsSequenced(c, rules, TapeOf(session, c, rules).value, 0, None);
  }

  /** One position at a time: each opens after every earlier one has closed, with the cooldown between. */
  lemma PositionsNeverOverlap(session: Session, c: Config, rules: Rules, j: nat, k: nat)
    requires ValidConfig(c) && j < k < |Positions(session, c, rules)|
    ensures var ps := Positions(session, c, rules);
      && ps[j].sales != []
      && ps[j].ticket.openedAt <= ExitAt(ps[j].sales) < ps[k].ticket.openedAt
      && ps[k].ticket.openedAt - ExitAt(ps[j].sales) >= c.cooldownMins * 60_000
  {
    hide Positions, TapeOf, Genuine, FirstFrom, Watch;
    var ps := Positions(session, c, rules);
    PositionsAreSequenced(session, c, rules);
    var tape := TapeOf(session, c, rules).value;
    GenuineOpensLate(c, rules, tape, ps[j]);
    GenuineOpensLate(c, rules, tape, ps[k]);
    assert Spaced(c, Some(ExitAt(ps[j].sales)), ps[k]);
  }

  lemma GenuineOpensLate(c: Config, rules: Rules, tape: Tape, p: Position)
    requires Ordered(tape) && Genuine(c, rules, tape, p)
    ensures p.sales != []
    ensures p.ticket.openedAt >= p.barAt + tape.closeMs
    ensures forall k :: 0 <= k < |p.sales| ==> p.sales[k].at >= p.ticket.openedAt
  {
    hide Watch;
    var e := FirstFrom(tape.snaps, p.barAt + tape.closeMs);
    SalesFollow(c, rules, p.ticket, OnOpen(c, p.ticket), tape.snaps, e + 1, tape.snaps[e].at);
  }

  /** Every recorded position is sold whole, in positive slices, with at most one scale-out. */
  lemma PositionsAreSoldWhole(session: Session, c: Config, rules: Rules, k: nat)
    requires ValidConfig(c) && k < |Positions(session, c, rules)|
    ensures var p := Positions(session, c, rules)[k];
      p.ticket.quantity >= 1 && SoldWhole(p.sales, p.ticket.quantity, false)
  {
    hide Positions, TapeOf, Watch, SoldWhole, FirstFrom;
    PositionsAreSequenced(session, c, rules);
    var p := Positions(session, c, rules)[k];
    var tape := TapeOf(session, c, rules).value;
    assert Genuine(c, rules, tape, p);
    PositionSellsWhole(c, rules, p.ticket, OnOpen(c, p.ticket), tape.snaps,
      FirstFrom(tape.snaps, p.barAt + tape.closeMs) + 1);
  }

  // ----- Entering after the bar -----

  lemma {:induction false} FirstFromIsFirst(snaps: seq<Snapshot>, at: int)
    ensures forall j :: 0 <= j < FirstFrom(snaps, at) ==> snaps[j].at < at
  {
    if snaps != [] && snaps[0].at < at {
      FirstFromIsFirst(snaps[1..], at);
      forall j | 0 <= j < FirstFrom(snaps, at) ensures snaps[j].at < at {
        if j > 0 {
          assert snaps[j] == snaps[1..][j - 1];
        }
      }
    }
  }

  ghost predicate SampledWithin(snaps: seq<Snapshot>, from: int, to: int) {
    exists k :: 0 <= k < |snaps| && from <= snaps[k].at < to
  }

  /**
   * A position built on spot bars never opens before its signal bar has closed. On recorded minute
   * bars it opens inside the minute whose close it was decided by, exactly when the chain was sampled in that minute.
   */
  lemma EntryWaitsForTheCloseExactly(session: Session, c: Config, rules: Rules, k: nat)
    requires ValidConfig(c) && k < |Positions(session, c, rules)|
    ensures TapeOf(session, c, rules).Some?
    ensures var p := Positions(session, c, rules)[k];
      && (UsesSpotBars(c) ==> p.ticket.openedAt >= p.barAt + BarMs(c))
      && (!UsesSpotBars(c) ==>
          (p.ticket.openedAt < p.barAt + MINUTE_MS <==>
            SampledWithin(TapeOf(session, c, rules).value.snaps, p.barAt, p.barAt + MINUTE_MS)))
  {
    hide Positions, Watch, FirstFrom, ChainSnapshots, SpotBars, InHours, FirstExpiration, FirstProduct;
    PositionsAreSequenced(session, c, rules);
    var p := Positions(session, c, rules)[k];
    var tape := TapeOf(session, c, rules).value;
    assert Genuine(c, rules, tape, p);
    GenuineOpensLate(c, rules, tape, p);
    EarlySampleIsTaken(tape.snaps, p.barAt, p.barAt + MINUTE_MS);
  }

  lemma EarlySampleIsTaken(snaps: seq<Snapshot>, from: int, to: int)
    requires InOrder(snaps)
    ensures var e := FirstFrom(snaps, from);
      e < |snaps| ==> (snaps[e].at < to <==> SampledWithin(snaps, from, to))
  {
    FirstFromIsFirst(snaps, from);
    var e := FirstFrom(snaps, from);
    if e < |snaps| && SampledWithin(snaps, from, to) {
      var k :| 0 <= k < |snaps| && from <= snaps[k].at < to;
      assert k >= e;
    }
  }

  // ----- The one-contract cap -----

  lemma LookIgnoresScaleOut(c: Config, rules: Rules, t: Ticket, h: Held, s: Snapshot, on: bool)
    requires c.profitLock.Some? ==> h.quantity == 1
    ensures LookAt(c.(useScaleOut := on), rules, t, h, s) == LookAt(c, rules, t, h, s)
    ensures var look := LookAt(c, rules, t, h, s);
      look.Stay? ==> look.sold.None? && look.held.quantity == h.quantity
  {
    hide RatchetProfitLock, RatchetPremiumStop, TimeStopDue, DecideSoftExit, FirstBid, Moved;
    var d := c.(useScaleOut := on);
    var bid := FirstBid(s.quotes, t.strike, t.right);
    if bid.Some? && c.profitLock.Some? {
      assert LadderLook(d, d.profitLock.value, t, h, bid.value, s)
        == LadderLook(c, c.profitLock.value, t, h, bid.value, s);
    } else if bid.Some? {
      assert TrailLook(d, t, h, bid.value, s) == TrailLook(c, t, h, bid.value, s);
    }
  }

  lemma {:induction false} WatchIgnoresScaleOut(
    c: Config, rules: Rules, t: Ticket, h: Held, snaps: seq<Snapshot>, i: nat, on: bool)
    requires snaps != [] && i <= |snaps|
    requires c.profitLock.Some? ==> h.quantity == 1
    ensures Watch(c.(useScaleOut := on), rules, t, h, snaps, i) == Watch(c, rules, t, h, snaps, i)
    ensures |Watch(c, rules, t, h, snaps, i)| == 1
    decreases |snaps| - i
  {
    hide LookAt;
    if i < |snaps| {
      LookIgnoresScaleOut(c, rules, t, h, snaps[i], on);
      var look := LookAt(c, rules, t, h, snaps[i]);
      if look.Stay? {
        WatchIgnoresScaleOut(c, rules, t, look.held, snaps, i + 1, on);
      }
    }
  }

  lemma OpenedIgnoresScaleOut(c: Config, rules: Rules, tape: Tape, i: nat, signal: Signal, e: nat, on: bool)
    requires Ordered(tape) && i < |tape.bars| && e < |tape.snaps|
    ensures OpenedAt(c.(useScaleOut := on), rules, tape, i, signal, e) == OpenedAt(c, rules, tape, i, signal, e)
  {
    hide Watch, TicketFor, Ordered;
    TicketIgnoresScaleOut(c, rules, tape, i, signal, tape.snaps[e], on);
    var t := TicketFor(c, rules, tape, i, signal, tape.snaps[e]);
    if t.Some? {
      TicketIsGenuine(c, rules, tape, i, signal, tape.snaps[e]);
      WatchIgnoresScaleOut(c, rules, t.value, OnOpen(c, t.value), tape.snaps, e + 1, on);
    }
  }

  lemma TicketIgnoresScaleOut(c: Config, rules: Rules, tape: Tape, i: nat, signal: Signal, s: Snapshot, on: bool)
    requires i < |tape.bars|
    ensures TicketFor(c.(useScaleOut := on), rules, tape, i, signal, s) == TicketFor(c, rules, tape, i, signal, s)
  {
    hide QuotesFromSnapshot, StrikeOf, Round2, LastBars, SizeAtRisk, SizePosition, ComputeBudget, DisasterStopBid,
      Moved, Away;
  }

  lemma {:induction false} ScanIgnoresScaleOut(c: Config, rules: Rules, tape: Tape, i: nat, lastExitAt: Option<int>,
      on: bool)
    requires Ordered(tape) && i <= |tape.bars|
    ensures Scan(c.(useScaleOut := on), rules, tape, i, lastExitAt) == Scan(c, rules, tape, i, lastExitAt)
    decreases |tape.bars| - i
  {
    hide Scan, SignalAt, OpenedAt, FirstFrom, FirstAfter, Ordered;
    var d := c.(useScaleOut := on);
    if i == |tape.bars| {
      ScanEnds(c, rules, tape, lastExitAt);
      ScanEnds(d, rules, tape, lastExitAt);
    } else {
      ScanUnfolds(c, rules, tape, i, lastExitAt);
      ScanUnfolds(d, rules, tape, i, lastExitAt);
      SignalIgnoresScaleOut(c, rules, tape, i, lastExitAt, on);
      var signal := SignalAt(c, rules, tape, i, lastExitAt);
      var e := FirstFrom(tape.snaps, tape.bars[i].chartTime + tape.closeMs);
      if signal.Some? && e < |tape.snaps| {
        OpenedIgnoresScaleOut(c, rules, tape, i, signal.value, e, on);
        var p := OpenedAt(c, rules, tape, i, signal.value, e);
        if p.Some? {
          var exitAt := ExitAt(p.value.sales);
          ScanIgnoresScaleOut(c, rules, tape, FirstAfter(tape.bars, exitAt), Some(exitAt), on);
        } else {
          ScanIgnoresScaleOut(c, rules, tape, i + 1, lastExitAt, on);
        }
      } else if signal.None? {
        ScanIgnoresScaleOut(c, rules, tape, i + 1, lastExitAt, on);
      }
    }
  }

  lemma SignalIgnoresScaleOut(c: Config, rules: Rules, tape: Tape, i: nat, lastExitAt: Option<int>, on: bool)
    requires i < |tape.bars|
    ensures SignalAt(c.(useScaleOut := on), rules, tape, i, lastExitAt) == SignalAt(c, rules, tape, i, lastExitAt)
  {
    hide Combined, LastBars, Filter;
  }

  lemma TapeIgnoresScaleOut(session: Session, c: Config, rules: Rules, on: bool)
    requires ValidConfig(c)
    ensures TapeOf(session, c.(useScaleOut := on), rules) == TapeOf(session, c, rules)
  {
    hide Sort, Filter, TagAll, SpotBars, InHours, FirstExpiration, FirstProduct;
    assert ChainSnapshots(session, c.(useScaleOut := on)) == ChainSnapshots(session, c);
  }

  /**
   * The sizing cap makes the scale-out setting inert: whatever it says, a replay records the same
   * trades, one row a position, and none of them a scale-out.
   */
  lemma CapMakesScaleOutInert(session: Session, c: Config, rules: Rules, on: bool)
    requires ValidConfig(c)
    ensures Replayed(session, c.(useScaleOut := on), rules) == Replayed(session, c, rules)
    ensures forall k :: 0 <= k < |Positions(session, c, rules)| ==>
      |Positions(session, c, rules)[k].sales| == 1 && Positions(session, c, rules)[k].sales[0].reason != SCALE_OUT
  {
    hide Scan, RecordAll, Watch, ChainSnapshots, SpotBars, InHours, FirstExpiration, FirstProduct, Ordered, FirstFrom;
    var tape := TapeOf(session, c, rules);
    TapeIgnoresScaleOut(session, c, rules, on);
    if tape.Some? {
      SortedTape(session, c, rules);
      ScanIgnoresScaleOut(c, rules, tape.value, 0, None, on);
    }
    var ps := Positions(session, c, rules);
    forall k | 0 <= k < |ps| ensures |ps[k].sales| == 1 && ps[k].sales[0].reason != SCALE_OUT {
      PositionsAreSequenced(session, c, rules);
      PositionsAreSoldWhole(session, c, rules, k);
      assert Genuine(c, rules, tape.value, ps[k]);
      var e := FirstFrom(tape.value.snaps, ps[k].barAt + tape.value.closeMs);
      WatchIgnoresScaleOut(c, rules, ps[k].ticket, OnOpen(c, ps[k].ticket), tape.value.snaps, e + 1, on);
    }
  }

  // ----- What the held contract and the recorded rows mean -----

  /** The picked quote is one of the chain's, on the side that was asked for. */
  ghost predicate PicksFromChain(rules: Rules) {
    forall chain, direction :: rules.select(chain, direction).Some? ==>
      var q := rules.select(chain, direction).value;
      q in chain && |q.symbol| > 12 && (q.symbol[12] == 'C' <==> direction == CALL)
  }

  lemma QuoteHasRow(rows: seq<Row>, expiration: string, underlying: Option<string>, q: ChainQuote)
    requires q in QuotesFromSnapshot(rows, expiration, underlying)
    ensures exists r :: r in rows && q.symbol == SymbolFor(OsiRoot(underlying), expiration, r.right, r.strike)
  {
    hide SymbolFor;
    var k :| 0 <= k < |rows| && QuotesFromSnapshot(rows, expiration, underlying)[k] == q;
    assert rows[k] in rows;
  }

  /**
   * The strike and right a position is held by are its symbol's own: in any later snapshot of the product
   * the bid looked up is the one the rebuilt chain quotes for that symbol.
   */
  lemma HeldBidIsTheSymbols(c: Config, rules: Rules, tape: Tape, i: nat, signal: Signal, s: Snapshot, later: Snapshot)
    requires PicksFromChain(rules) && |tape.expiration| == 6 && tape.product.Some? && i < |tape.bars|
    requires forall r :: r in s.quotes + later.quotes ==> Listed(r.strike)
    requires TicketFor(c, rules, tape, i, signal, s).Some?
    ensures var t := TicketFor(c, rules, tape, i, signal, s).value;
      FirstBid(later.quotes, t.strike, t.right)
        == QuotedBid(QuotesFromSnapshot(later.quotes, tape.expiration, tape.product), t.symbol)
  {
    hide SymbolFor, StrikeOf, Listed, Sized, StopFor, LevelsFor, LastBars, Round2, FirstBid, QuotedBid,
      QuotesFromSnapshot;
    var t := TicketFor(c, rules, tape, i, signal, s).value;
    var q := rules.select(QuotesFromSnapshot(s.quotes, tape.expiration, tape.product), signal.direction).value;
    QuoteHasRow(s.quotes, tape.expiration, tape.product, q);
    var r :| r in s.quotes && q.symbol == SymbolFor(OsiRoot(tape.product), tape.expiration, r.right, r.strike);
    assert r in s.quotes + later.quotes;
    assert forall x :: x in later.quotes ==> x in s.quotes + later.quotes;
    SymbolParts(OsiRoot(tape.product), tape.expiration, r.right, r.strike);
    FastLookupAgrees(later.quotes, tape.expiration, tape.product, r);
  }

  function TotalNet(rows: seq<Trade>): real {
    if rows == [] then 0.0 else rows[0].netPnl + TotalNet(rows[1..])
  }

  /** Dollars taken in by sales. */
  function Received(sales: seq<Sale>): real {
    if sales == [] then 0.0 else sales[0].premium * 100.0 * sales[0].quantity as real + Received(sales[1..])
  }

  ghost predicate WholeCents(x: real) {
    exists n: int :: InCents(x, n)
  }

  predicate InCents(x: real, cents: int) {
    x == cents as real / 100.0
  }

  /** A row's figures are exact when its premiums are whole cents: rounding changes nothing. */
  lemma RowIsExact(etDateKey: string, rate: nat, t: Ticket, sale: Sale)
    requires sale.quantity >= 0 && WholeCents(t.entry) && WholeCents(sale.premium)
    ensures RecordTrade(etDateKey, rate as real / 100.0, t, sale).netPnl
         == sale.premium * 100.0 * sale.quantity as real - t.entry * 100.0 * sale.quantity as real
            - (2 * sale.quantity * rate) as real / 100.0
  {
    hide Round2, CommissionForRoundTrip, InCents, GrossOf;
    var e: int :| InCents(t.entry, e);
    var p: int :| InCents(sale.premium, p);
    CommissionIsLinear(sale.quantity, rate);
    GrossInCents(sale.premium, t.entry, p, e, sale.quantity);
    NetInCents(GrossOf(sale.premium, t.entry, sale.quantity), (p - e) * sale.quantity, 2 * sale.quantity * rate);
  }

  lemma NetInCents(gross: real, dollars: int, fees: int)
    requires gross == dollars as real
    ensures Round2(gross - fees as real / 100.0) == gross - fees as real / 100.0
  {
    hide Round2;
    assert gross - fees as real / 100.0 == (100 * dollars - fees) as real / 100.0;
    Round2Cents(100 * dollars - fees);
  }

  lemma GrossInCents(premium: real, entry: real, p: int, e: int, quantity: nat)
    requires InCents(premium, p) && InCents(entry, e)
    ensures GrossOf(premium, entry, quantity) == ((p - e) * quantity) as real
    ensures GrossOf(premium, entry, quantity) == premium * 100.0 * quantity as real - entry * 100.0 * quantity as real
  {
    var q := quantity as real;
    assert (premium - entry) * 100.0 == (p - e) as real;
    assert ((p - e) * quantity) as real == (p - e) as real * q;
    assert (premium - entry) * q * 100.0 == premium * 100.0 * q - entry * 100.0 * q;
  }

  lemma {:induction false} RowsBalance(etDateKey: string, rate: nat, t: Ticket, sales: seq<Sale>)
    requires WholeCents(t.entry) && forall k :: 0 <= k < |sales| ==>
      sales[k].quantity >= 0 && WholeCents(sales[k].premium)
    ensures TotalNet(RecordSales(etDateKey, rate as real / 100.0, t, sales))
         == Received(sales) - t.entry * 100.0 * SumOf(sales, QuantityOf()) as real
            - 2.0 * SumOf(sales, QuantityOf()) as real * rate as real / 100.0
  {
    hide RecordTrade, WholeCents;
    if sales != [] {
      var rows := RecordSales(etDateKey, rate as real / 100.0, t, sales);
      assert rows[1..] == RecordSales(etDateKey, rate as real / 100.0, t, sales[1..]);
      RowsBalance(etDateKey, rate, t, sales[1..]);
      RowIsExact(etDateKey, rate, t, sales[0]);
      Combine(t.entry, rate as real, sales[0].quantity as real, SumOf(sales[1..], QuantityOf()) as real);
      assert (2 * sales[0].quantity * rate) as real == 2.0 * sales[0].quantity as real * rate as real;
    }
  }

  lemma Combine(entry: real, rate: real, q: real, rest: real)
    ensures entry * 100.0 * (q + rest) == entry * 100.0 * q + entry * 100.0 * rest
    ensures 2.0 * (q + rest) * rate / 100.0 == 2.0 * q * rate / 100.0 + 2.0 * rest * rate / 100.0
  {
  }

  /**
   * However a position was sliced, its rows add up to one round trip: what the sales took in, less the
   * entry cost and the commission of the whole size.
   */
  lemma SlicesAreOneRoundTrip(c: Config, rules: Rules, t: Ticket, snaps: seq<Snapshot>, i: nat, etDateKey: string,
      rate: nat)
    requires snaps != [] && i <= |snaps| && t.quantity >= 1 && WholeCents(t.entry)
         && c.commission == rate as real / 100.0
    requires forall k :: 0 <= k < |Watch(c, rules, t, OnOpen(c, t), snaps, i)| ==>
      WholeCents(Watch(c, rules, t, OnOpen(c, t), snaps, i)[k].premium)
    ensures var sales := Watch(c, rules, t, OnOpen(c, t), snaps, i);
      TotalNet(RecordSales(etDateKey, c.commission, t, sales))
      == Received(sales) - t.entry * 100.0 * t.quantity as real - CommissionForRoundTrip(t.quantity, c.commission)
  {
    hide Watch, RecordSales, TotalNet, Received, WholeCents, CommissionForRoundTrip, SumOf;
    var sales := Watch(c, rules, t, OnOpen(c, t), snaps, i);
    PositionSellsWhole(c, rules, t, OnOpen(c, t), snaps, i);
    RowsBalance(etDateKey, rate, t, sales);
    CommissionIsLinear(t.quantity, rate);
    assert (2 * t.quantity * rate) as real == 2.0 * t.quantity as real * rate as real;
  }

  /** A later snapshot, before the hard flatten, that shows the bid and the spot a ticket was opened on. */
  predicate Unmoved(c: Config, rules: Rules, t: Ticket, entered: Snapshot, later: Snapshot) {
    && rules.clockLabel(later.at) < c.hardFlattenTime && t.bid.Some?
    && FirstBid(later.quotes, t.strike, t.right) == t.bid
    && OrElse(later.spot, t.barClose) == OrElse(entered.spot, t.barClose)
  }

  /**
   * On a market that has not moved, a position of the older exits is sold exactly when the spread it was
   * bought across is as wide as its premium stop: no other level is touched.
   */
  lemma OnlyTheSpreadStopsAtOnce(
    c: Config, rules: Rules, tape: Tape, i: nat, signal: Signal, s: Snapshot, later: Snapshot)
    requires i < |tape.bars| && TicketFor(c, rules, tape, i, signal, s).Some?
    requires c.profitLock.None? && c.stopAtrMult > 0.0 && c.targetAtrMult > 0.0
    requires c.premiumTargetPct > 0.0 && c.trailArmPct > 0.0
    requires var t := TicketFor(c, rules, tape, i, signal, s).value;
      Unmoved(c, rules, t, s, later) && t.bid.value <= t.entry && t.entry > 0.0
    ensures var t := TicketFor(c, rules, tape, i, signal, s).value;
      var look := LookAt(c, rules, t, OnOpen(c, t), later);
      && (look.Leave? <==> c.usePremiumStop && t.bid.value <= Moved(t.entry, -c.premiumStopPct))
      && (look.Leave? ==> look.sale == Sale(t.quantity, t.bid.value, later.at, PREMIUM_STOP))
  {
    var t := TicketFor(c, rules, tape, i, signal, s).value;
    hide Moved, Away, FirstBid, Sized, Round2, QuotesFromSnapshot, StrikeOf;
    var atr := rules.atr(LastBars(tape.bars[..i + 1], c.maxBars));
    var used := if atr.Some? && atr.value > 0.0 then atr.value else ATR_FLOOR;
    MovedFromEntry(t.entry, c.premiumTargetPct);
    assert t.entry * (c.trailArmPct / 100.0) > 0.0;
    assert t.bid.value < t.entry * (1.0 + c.trailArmPct / 100.0);
    AwayFromSpot(OrElse(s.spot, t.barClose), used, c.stopAtrMult);
    AwayFromSpot(OrElse(s.spot, t.barClose), used, c.targetAtrMult);
  }

  lemma MovedFromEntry(entry: real, pct: real)
    requires entry > 0.0 && pct > 0.0
    ensures Moved(entry, -pct) < entry < Moved(entry, pct)
  {
    assert entry * (pct / 100.0) > 0.0;
  }

  lemma AwayFromSpot(spot: real, atr: real, mult: real)
    requires atr > 0.0 && mult > 0.0
    ensures Away(spot, -1.0, atr, mult) < spot < Away(spot, 1.0, atr, mult)
  {
    assert atr * mult > 0.0;
  }

  // ----- The older trail's breakeven -----

  /**
   * The breakeven handed to the older trail is the entry plus a cent a contract: selling there covers
   * the commission of both legs exactly when the position is large enough.
   */
  lemma TrailBreakevenCoversExactly(entry: real, quantity: nat, cents: nat)
    requires quantity >= 1
    ensures (TrailBreakeven(entry, quantity) - entry) * 100.0 * quantity as real
         >= CommissionForRoundTrip(quantity, cents as real / 100.0)
       <==> 100 * quantity >= 2 * cents
  {
    CommissionIsLinear(quantity, cents);
    var q := quantity as real;
    assert (TrailBreakeven(entry, quantity) - entry) * 100.0 == q;
    assert (2 * quantity * cents) as real == 2.0 * q * cents as real;
    BreakevenScales(q, cents as real);
    assert 100 * quantity >= 2 * cents <==> 100.0 * q >= 2.0 * cents as real;
  }

  /** At the default rate a one-contract position sold at that breakeven is thirty cents short of its commission. */
  lemma TrailBreakevenMissesOneContract(entry: real)
    ensures (TrailBreakeven(entry, 1) - entry) * 100.0 == CommissionForRoundTrip(1, 0.65) - 0.30
  {
    CommissionIsLinear(1, 65);
    hide CommissionForRoundTrip;
  }

  lemma BreakevenScales(q: real, cents: real)
    requires q > 0.0
    ensures q * q >= 2.0 * q * cents / 100.0 <==> 100.0 * q >= 2.0 * cents
  {
    var d := 100.0 * q - 2.0 * cents;
    assert 100.0 * (q * q) - 2.0 * q * cents == d * q;
    if d >= 0.0 {
      assert d * q >= 0.0;
    } else {
      assert d * q < 0.0;
    }
  }
}
