/** What every recorded position was bought at, why it was bought, and what each of its sales was made at. */
module ReplayPrices {
  import opened Bars
  import opened Ladder
  import opened Market
  import opened Osi
  import opened Replay
  import opened ReplayLaws
  import opened Seqs
  import opened Votes

  // ----- The chain is what was recorded -----

  lemma {:induction false} TagsKeepSnapshots(snaps: seq<Snapshot>, s: Snapshot)
    requires s in TagAll(snaps)
    ensures exists raw :: raw in snaps && s == raw.(underlying := TagOf(raw))
  {
    if s == snaps[0].(underlying := TagOf(snaps[0])) {
      assert snaps[0] in snaps;
    } else {
      TagsKeepSnapshots(snaps[1..], s);
      var raw :| raw in snaps[1..] && s == raw.(underlying := TagOf(raw));
      assert raw in snaps;
    }
  }

  lemma ChainIsRecorded(session: Session, c: Config, s: Snapshot)
    requires s in ChainSnapshots(session, c)
    ensures exists raw :: raw in session.snapshots && s == raw.(underlying := TagOf(raw))
  {
    hide SnapshotMatches, TagOf, Sort, Filter, TagAll;
    var tags := TagAll(session.snapshots);
    var tagged := Sort(tags, NotAfter());
    SortIsSorted(tags, NotAfter());
    if Wanted(c).Some? {
      FilterMembers(tagged, Matching(Wanted(c).value));
    }
    assert s in multiset(tagged);
    TagsKeepSnapshots(session.snapshots, s);
  }

  // ----- Where a position was opened -----

  /** The position is the ticket of bar `i`'s signal on snapshot `e`, the first once the bar has closed. */
  ghost predicate OpenedBy(c: Config, rules: Rules, tape: Tape, p: Position, i: nat, e: nat, signal: Signal)
    requires Ordered(tape)
  {
    && i < |tape.bars| && p.barAt == tape.bars[i].chartTime
    && e < |tape.snaps| && e == FirstFrom(tape.snaps, p.barAt + tape.closeMs)
    && (exists lastExitAt :: SignalAt(c, rules, tape, i, lastExitAt) == Some(signal))
    && TicketFor(c, rules, tape, i, signal, tape.snaps[e]) == Some(p.ticket)
    && p.sales == Watch(c, rules, p.ticket, OnOpen(c, p.ticket), tape.snaps, e + 1)
  }

  lemma OpenedAtIsOpenedBy(c: Config, rules: Rules, tape: Tape, i: nat, lastExitAt: Option<int>)
    requires Ordered(tape) && i < |tape.bars| && SignalAt(c, rules, tape, i, lastExitAt).Some?
    requires FirstFrom(tape.snaps, tape.bars[i].chartTime + tape.closeMs) < |tape.snaps|
    ensures var e := FirstFrom(tape.snaps, tape.bars[i].chartTime + tape.closeMs);
      var signal := SignalAt(c, rules, tape, i, lastExitAt).value;
      var p := OpenedAt(c, rules, tape, i, signal, e);
      p.Some? ==> OpenedBy(c, rules, tape, p.value, i, e, signal)
  {
    hide TicketFor, Watch, FirstFrom, Ordered, SignalAt;
  }

  lemma {:induction false} ScanOpens(c: Config, rules: Rules, tape: Tape, i: nat, lastExitAt: Option<int>, k: nat)
    requires Ordered(tape) && i <= |tape.bars| && k < |Scan(c, rules, tape, i, lastExitAt)|
    ensures exists j, e, signal :: OpenedBy(c, rules, tape, Scan(c, rules, tape, i, lastExitAt)[k], j, e, signal)
    decreases |tape.bars| - i
  {
    hide Scan, SignalAt, OpenedAt, OpenedBy, FirstFrom, FirstAfter, Ordered;
    if i == |tape.bars| {
      ScanEnds(c, rules, tape, lastExitAt);
    } else {
      ScanUnfolds(c, rules, tape, i, lastExitAt);
      var signal := SignalAt(c, rules, tape, i, lastExitAt);
      var e := FirstFrom(tape.snaps, tape.bars[i].chartTime + tape.closeMs);
      if signal.Some? && e < |tape.snaps| && OpenedAt(c, rules, tape, i, signal.value, e).Some? {
        var p := OpenedAt(c, rules, tape, i, signal.value, e).value;
        if k == 0 {
          OpenedAtIsOpenedBy(c, rules, tape, i, lastExitAt);
          assert Scan(c, rules, tape, i, lastExitAt)[0] == p;
        } else {
          var rest := Scan(c, rules, tape, FirstAfter(tape.bars, ExitAt(p.sales)), Some(ExitAt(p.sales)));
          ScanOpens(c, rules, tape, FirstAfter(tape.bars, ExitAt(p.sales)), Some(ExitAt(p.sales)), k - 1);
          assert Scan(c, rules, tape, i, lastExitAt)[k] == rest[k - 1];
        }
      } else {
        ScanOpens(c, rules, tape, i + 1, lastExitAt, k);
      }
    }
  }

  lemma PositionOpens(session: Session, c: Config, rules: Rules, k: nat) returns (i: nat, e: nat, signal: Signal)
    requires ValidConfig(c) && k < |Positions(session, c, rules)|
    ensures TapeOf(session, c, rules).Some? && Ordered(TapeOf(session, c, rules).value)
    ensures OpenedBy(c, rules, TapeOf(session, c, rules).value, Positions(session, c, rules)[k], i, e, signal)
  {
    hide TapeOf, Scan, OpenedBy, Ordered;
    SortedTape(session, c, rules);
    var tape := TapeOf(session, c, rules).value;
    ScanOpens(c, rules, tape, 0, None, k);
    i, e, signal :| OpenedBy(c, rules, tape, Positions(session, c, rules)[k], i, e, signal);
  }

  // ----- What it was bought at -----

  /** The symbol names the product's root, the expiration, the row's side and, if it is listed, its strike. */
  predicate Carries(symbol: string, product: Option<string>, expiration: string, r: Row) {
    && |symbol| > 12
    && symbol[..6] == (if product == Some("SPX") || product == Some("SPXW") then "SPXW  " else "SPY   ")
    && symbol[6..12] == expiration
    && (r.right == 0 <==> symbol[12] == 'C')
    && (Listed(r.strike) ==> StrikeOf(symbol) == Some(r.strike))
  }

  lemma PrintedCarries(product: Option<string>, expiration: string, r: Row)
    requires |expiration| == 6
    ensures Carries(SymbolFor(OsiRoot(product), expiration, r.right, r.strike), product, expiration, r)
  {
    hide StrikeOf, Listed, Thousandths;
    SymbolParts(OsiRoot(product), expiration, r.right, r.strike);
    StrikeReadsBackExactly(OsiRoot(product), expiration, r.right, r.strike);
    var symbol := SymbolFor(OsiRoot(product), expiration, r.right, r.strike);
    assert symbol[..6] == OsiRoot(product);
  }

  /** A stored row that the position was bought on, and the snapshot it stands in. */
  predicate BoughtOn(c: Config, expiration: string, t: Ticket, s: Snapshot, r: Row, product: Option<string>) {
    && r in s.quotes && s.at == t.openedAt
    && Carries(t.symbol, product, expiration, r) && (c.underlying.Some? ==> product == c.underlying)
    && (r.right == 0 <==> t.direction == CALL)
    && r.ask.Some? && t.entry == Round2(r.ask.value + c.paperSlippageCents / 100.0)
    && t.bid == r.bid
  }

  predicate QuotedAs(r: Row, expiration: string, product: Option<string>, q: ChainQuote) {
    && q.symbol == SymbolFor(OsiRoot(product), expiration, r.right, r.strike)
    && q.ask == r.ask && q.bid == r.bid
  }

  lemma QuoteIsARow(rows: seq<Row>, expiration: string, product: Option<string>, q: ChainQuote)
    requires q in QuotesFromSnapshot(rows, expiration, product)
    ensures exists r :: r in rows && QuotedAs(r, expiration, product, q)
  {
    hide SymbolFor;
    var k :| 0 <= k < |rows| && QuotesFromSnapshot(rows, expiration, product)[k] == q;
    assert rows[k] in rows;
  }

  lemma TicketIsBought(c: Config, rules: Rules, tape: Tape, i: nat, signal: Signal, s: Snapshot)
    requires i < |tape.bars| && PicksFromChain(rules) && |tape.expiration| == 6
    requires c.underlying.Some? ==> tape.product == c.underlying
    requires TicketFor(c, rules, tape, i, signal, s).Some?
    ensures var t := TicketFor(c, rules, tape, i, signal, s).value;
      exists r, product :: BoughtOn(c, tape.expiration, t, s, r, product)
  {
    hide SymbolFor, StrikeOf, Sized, StopFor, LevelsFor, LastBars, Round2, QuotesFromSnapshot;
    var t := TicketFor(c, rules, tape, i, signal, s).value;
    var product := if tape.product.Some? then tape.product else s.underlying;
    var q := rules.select(QuotesFromSnapshot(s.quotes, tape.expiration, product), signal.direction).value;
    QuoteIsARow(s.quotes, tape.expiration, product, q);
    var r :| r in s.quotes && QuotedAs(r, tape.expiration, product, q);
    PrintedCarries(product, tape.expiration, r);
    hide StrikeOf, Listed;
    assert BoughtOn(c, tape.expiration, t, s, r, product);
  }

  lemma BoughtOnRecorded(c: Config, expiration: string, t: Ticket, s: Snapshot, raw: Snapshot, r: Row,
      product: Option<string>)
    requires BoughtOn(c, expiration, t, s, r, product) && s == raw.(underlying := TagOf(raw))
    ensures BoughtOn(c, expiration, t, raw, r, product)
  {
    hide Carries, Round2;
  }

  /** Some recorded snapshot has the row. */
  ghost predicate RecordedAs(session: Session, c: Config, expiration: string, t: Ticket) {
    exists raw, r, product :: raw in session.snapshots && BoughtOn(c, expiration, t, raw, r, product)
  }

  lemma NoneIsEarlier(snaps: seq<Snapshot>, at: int)
    requires InOrder(snaps) && FirstFrom(snaps, at) < |snaps|
    ensures forall s :: s in snaps && s.at >= at ==> s.at >= snaps[FirstFrom(snaps, at)].at
  {
    FirstFromIsFirst(snaps, at);
  }

  /** When its signal bar counts as closed. */
  function ClosedAt(c: Config, p: Position): int
    requires ValidConfig(c)
  {
    p.barAt + if UsesSpotBars(c) then BarMs(c) else 0
  }

  /**
   * Every recorded position was bought on a row of a recorded snapshot: it carries that row's symbol and side,
   * its entry is that row's ask and the slippage, to the cent, and its first bid is that row's. No chain
   * snapshot was there to be used earlier, once the signal bar had closed.
   */
  lemma EntriesAreBoughtAtTheAsk(session: Session, c: Config, rules: Rules, k: nat)
    requires ValidConfig(c) && PicksFromChain(rules) && |ExpirationOf(session, c, rules)| == 6
    requires k < |Positions(session, c, rules)|
    ensures var p := Positions(session, c, rules)[k];
      && RecordedAs(session, c, ExpirationOf(session, c, rules), p.ticket)
      && (forall s :: s in ChainSnapshots(session, c) && s.at >= ClosedAt(c, p) ==> s.at >= p.ticket.openedAt)
  {
    var i, e, signal := PositionOpens(session, c, rules, k);
    var tape, p := TapeOf(session, c, rules).value, Positions(session, c, rules)[k];
    TapeIsTheChain(session, c, rules);
    hide Positions, TapeOf, Watch, SignalAt, TicketFor, FirstFrom, ChainSnapshots, BoughtOn, ExpirationOf,
      PicksFromChain, RecordedAs, Ordered, OpenedBy;
    EntryIsFirst(c, rules, tape, p, i, e, signal);
    TicketIsRecorded(session, c, rules, tape, i, signal, e);
  }

  lemma EntryIsFirst(c: Config, rules: Rules, tape: Tape, p: Position, i: nat, e: nat, signal: Signal)
    requires Ordered(tape) && OpenedBy(c, rules, tape, p, i, e, signal)
    ensures i < |tape.bars| && e < |tape.snaps|
    ensures TicketFor(c, rules, tape, i, signal, tape.snaps[e]) == Some(p.ticket)
    ensures forall s :: s in tape.snaps && s.at >= p.barAt + tape.closeMs ==> s.at >= p.ticket.openedAt
  {
    hide TicketFor, SignalAt, Watch, FirstFrom;
    TicketIsGenuine(c, rules, tape, i, signal, tape.snaps[e]);
    NoneIsEarlier(tape.snaps, p.barAt + tape.closeMs);
  }

  lemma TicketIsRecorded(session: Session, c: Config, rules: Rules, tape: Tape, i: nat, signal: Signal, e: nat)
    requires i < |tape.bars| && e < |tape.snaps| && PicksFromChain(rules) && |tape.expiration| == 6
    requires c.underlying.Some? ==> tape.product == c.underlying
    requires tape.snaps == ChainSnapshots(session, c) && TicketFor(c, rules, tape, i, signal, tape.snaps[e]).Some?
    ensures RecordedAs(session, c, tape.expiration, TicketFor(c, rules, tape, i, signal, tape.snaps[e]).value)
  {
    hide TicketFor, ChainSnapshots, BoughtOn, PicksFromChain;
    var t, s := TicketFor(c, rules, tape, i, signal, tape.snaps[e]).value, tape.snaps[e];
    TicketIsBought(c, rules, tape, i, signal, s);
    var r, product :| BoughtOn(c, tape.expiration, t, s, r, product);
    assert s in tape.snaps;
    ChainIsRecorded(session, c, s);
    var raw :| raw in session.snapshots && s == raw.(underlying := TagOf(raw));
    BoughtOnRecorded(c, tape.expiration, t, s, raw, r, product);
  }

  lemma TapeIsTheChain(session: Session, c: Config, rules: Rules)
    requires ValidConfig(c) && TapeOf(session, c, rules).Some?
    ensures var tape := TapeOf(session, c, rules).value;
      && tape.snaps == ChainSnapshots(session, c) && tape.expiration == ExpirationOf(session, c, rules)
      && tape.closeMs == (if UsesSpotBars(c) then BarMs(c) else 0)
      && (c.underlying.Some? ==> tape.product == c.underlying)
  {
    hide ChainSnapshots, InHours, SpotBars, FirstExpiration, FirstProduct;
  }

  // ----- Why it was bought -----

  /** How many votes a replay asks for. */
  function AgreementAsked(c: Config): Agreement {
    match c.minStrategyAgreement
    case None => c.combineMode
    case Some(votes) => if votes > 1.0 then Quorum(votes) else c.combineMode
  }

  /** Minutes that are over once the bar is. */
  function OverBy(c: Config, tape: Tape, bar: Bar): Bar -> bool {
    (m: Bar) => m.chartTime + 60_000 <= bar.chartTime + if UsesSpotBars(c) then tape.closeMs else 60_000
  }

  /** Every gate of bar `i`, on what had been seen by then. */
  predicate Gates(c: Config, rules: Rules, tape: Tape, i: nat, signal: Signal)
    requires i < |tape.bars|
  {
    var bar, window := tape.bars[i], LastBars(tape.bars[..i + 1], c.maxBars);
    && c.tradeWindowStart <= rules.clockLabel(bar.chartTime) < c.tradeWindowEnd
    && |window| >= 6
    && Combined(c.strategies, rules.evaluate(window, tape.start), bar.chartTime, AgreementAsked(c)) == Some(signal)
    && signal.direction in c.directionsEnabled
    && (c.trendGate ==>
          rules.trendAllows(signal.direction, Filter(tape.minutes, OverBy(c, tape, bar)), tape.start, bar.close))
  }

  lemma {:induction false} SameMinutes(c: Config, tape: Tape, bar: Bar, minutes: seq<Bar>)
    ensures Filter(minutes, ClosedBy(TrendCut(c, tape, bar))) == Filter(minutes, OverBy(c, tape, bar))
  {
    if minutes != [] {
      SameMinutes(c, tape, bar, minutes[1..]);
    }
  }

  lemma AsksAgreement(c: Config)
    ensures AgreementOf(c) == AgreementAsked(c)
  {
  }

  /** A bar signals exactly when it passes every gate, a cooldown or more after the last exit. */
  lemma SignalsExactly(c: Config, rules: Rules, tape: Tape, i: nat, lastExitAt: Option<int>, signal: Signal)
    requires i < |tape.bars|
    ensures SignalAt(c, rules, tape, i, lastExitAt) == Some(signal)
       <==> Gates(c, rules, tape, i, signal)
            && (lastExitAt.Some? ==> tape.bars[i].chartTime - lastExitAt.value >= c.cooldownMins * 60_000)
  {
    SameMinutes(c, tape, tape.bars[i], tape.minutes);
    AsksAgreement(c);
    hide Combined, LastBars, Filter, AgreementOf, TrendCut, AgreementAsked;
  }

  /** The signal of the position's bar passed every gate. */
  predicate Signalled(c: Config, rules: Rules, tape: Tape, p: Position, i: nat)
    requires i < |tape.bars|
  {
    && p.barAt == tape.bars[i].chartTime
    && OPEN_LABEL <= rules.clockLabel(p.barAt) < CLOSE_LABEL
    && Gates(c, rules, tape, i, Signal(p.barAt, p.ticket.strategies, p.ticket.direction))
  }

  lemma SignalIsOfItsBar(c: Config, rules: Rules, tape: Tape, i: nat, signal: Signal)
    requires i < |tape.bars| && Gates(c, rules, tape, i, signal)
    ensures signal.at == tape.bars[i].chartTime
  {
    hide LastBars, Filter, Winner, Voters;
  }

  lemma TicketKeepsSignal(c: Config, rules: Rules, tape: Tape, i: nat, signal: Signal, s: Snapshot)
    requires i < |tape.bars| && TicketFor(c, rules, tape, i, signal, s).Some?
    ensures var t := TicketFor(c, rules, tape, i, signal, s).value;
      t.direction == signal.direction && t.strategies == signal.strategies
  {
    hide SymbolFor, StrikeOf, Sized, StopFor, LevelsFor, LastBars, Round2, QuotesFromSnapshot;
  }

  /**
   * Every recorded position was called for by the vote on the bars closed by its signal bar, at least six of
   * them, in an enabled direction, inside the trade window and regular hours, with the trend if that is asked.
   */
  lemma PositionsPassTheGates(session: Session, c: Config, rules: Rules, k: nat)
    requires ValidConfig(c) && k < |Positions(session, c, rules)|
    ensures TapeOf(session, c, rules).Some?
    ensures var tape := TapeOf(session, c, rules).value;
      exists i :: 0 <= i < |tape.bars| && Signalled(c, rules, tape, Positions(session, c, rules)[k], i)
  {
    var i, e, signal := PositionOpens(session, c, rules, k);
    var tape, p := TapeOf(session, c, rules).value, Positions(session, c, rules)[k];
    BarsAreInHours(session, c, rules);
    hide Positions, Watch, SignalAt, TicketFor, FirstFrom, TapeOf, Gates;
    var lastExitAt :| SignalAt(c, rules, tape, i, lastExitAt) == Some(signal);
    SignalsExactly(c, rules, tape, i, lastExitAt, signal);
    SignalIsOfItsBar(c, rules, tape, i, signal);
    TicketKeepsSignal(c, rules, tape, i, signal, tape.snaps[e]);
    assert tape.bars[i] in tape.bars;
    assert Signalled(c, rules, tape, p, i);
  }

  lemma BarsAreInHours(session: Session, c: Config, rules: Rules)
    requires ValidConfig(c) && TapeOf(session, c, rules).Some?
    ensures forall b :: b in TapeOf(session, c, rules).value.bars ==>
      OPEN_LABEL <= rules.clockLabel(b.chartTime) < CLOSE_LABEL
  {
    hide ChainSnapshots, SpotBars, FirstExpiration, FirstProduct, Sort, Filter;
    var raw := if UsesSpotBars(c) then SpotBars(ChainSnapshots(session, c), BarMs(c)) else session.bars;
    FilterMembers(raw, RegularHours(rules));
    SortIsSorted(Filter(raw, RegularHours(rules)), Earlier());
    var bars := InHours(raw, rules);
    forall b | b in bars ensures RegularHours(rules)(b) {
      assert b in multiset(bars);
    }
  }

  // ----- What it was sold at -----

  /** The bid last shown for the contract after snapshot `e` and up to snapshot `j`. */
  function LastShown(t: Ticket, snaps: seq<Snapshot>, e: nat, j: int): Option<real>
    requires j < |snaps|
    decreases j
  {
    if j <= e then None
    else
      var bid := FirstBid(snaps[j].quotes, t.strike, t.right);
      if bid.Some? then bid else LastShown(t, snaps, e, j - 1)
  }

  /** That bid; else what the position was picked by, else its own entry. A last snapshot is looked at even if `e`. */
  function LastKnown(t: Ticket, snaps: seq<Snapshot>, e: nat, j: int): real
    requires e <= j < |snaps|
  {
    var here := if j == e then FirstBid(snaps[e].quotes, t.strike, t.right) else None;
    OrElse(LastShown(t, snaps, e, j), OrElse(here, OrElse(t.bid, t.entry)))
  }

  /** The sale was made on snapshot `j`, at what was last known of the bid by then. */
  predicate SoldOn(c: Config, rules: Rules, t: Ticket, snaps: seq<Snapshot>, e: nat, j: int, sale: Sale)
    requires e <= j < |snaps|
  {
    && sale.at == snaps[j].at && sale.premium == LastKnown(t, snaps, e, j)
    && (forall m :: e < m < j ==> rules.clockLabel(snaps[m].at) < c.hardFlattenTime)
    && (sale.reason == HARD_FLATTEN_EOD <==> j > e && rules.clockLabel(snaps[j].at) >= c.hardFlattenTime)
    && (sale.reason == SESSION_END ==> j == |snaps| - 1)
    && (sale.reason != HARD_FLATTEN_EOD && sale.reason != SESSION_END ==>
          FirstBid(snaps[j].quotes, t.strike, t.right) == Some(sale.premium))
  }

  /** What the holding loop remembers of the bid before snapshot `i`. */
  predicate Remembers(t: Ticket, h: Held, snaps: seq<Snapshot>, e: nat, i: nat)
    requires e < i <= |snaps|
  {
    OrElse(h.lastBid, t.entry) == OrElse(LastShown(t, snaps, e, i - 1), OrElse(t.bid, t.entry))
  }

  lemma LookPrices(c: Config, rules: Rules, t: Ticket, h: Held, snaps: seq<Snapshot>, e: nat, i: nat)
    requires e < i < |snaps| && Remembers(t, h, snaps, e, i)
    requires forall m :: e < m < i ==> rules.clockLabel(snaps[m].at) < c.hardFlattenTime
    ensures var look := LookAt(c, rules, t, h, snaps[i]);
      && (look.Leave? ==> SoldOn(c, rules, t, snaps, e, i, look.sale))
      && (look.Stay? ==>
          && rules.clockLabel(snaps[i].at) < c.hardFlattenTime && Remembers(t, look.held, snaps, e, i + 1)
          && (look.sold.Some? ==> SoldOn(c, rules, t, snaps, e, i, look.sold.value)))
  {
    hide DecideTickExit, DecideSoftExit, RatchetPremiumStop, CommissionForRoundTrip, FirstBid;
    TickReasons(c, t, h, snaps[i]);
    hide LadderTick;
  }

  /** No look of the ladder or the trail is reasoned with the clock of the session. */
  lemma TickReasons(c: Config, t: Ticket, h: Held, s: Snapshot)
    ensures forall bid, ladder :: var d := DecideTickExit(LadderTick(c, ladder, t, h, bid, s));
      d.Exit? ==> d.reason != HARD_FLATTEN_EOD && d.reason != SESSION_END
    ensures forall spot, bid, stop, source, levels ::
      var r := DecideSoftExit(Some(t.direction), spot, bid, stop, source, levels);
      r.Some? ==> r.value != HARD_FLATTEN_EOD && r.value != SESSION_END
  {
    hide RatchetProfitLock, TimeStopDue, ShouldScaleOut, LadderTick;
  }

  lemma EndPrices(c: Config, rules: Rules, t: Ticket, h: Held, snaps: seq<Snapshot>, e: nat)
    requires e < |snaps| && Remembers(t, h, snaps, e, |snaps|)
    requires forall m :: e < m < |snaps| ==> rules.clockLabel(snaps[m].at) < c.hardFlattenTime
    ensures SoldOn(c, rules, t, snaps, e, |snaps| - 1, EndSale(t, h, snaps[|snaps| - 1]))
  {
    hide FirstBid;
  }

  ghost predicate SoldLater(c: Config, rules: Rules, t: Ticket, snaps: seq<Snapshot>, e: nat, sale: Sale) {
    exists j :: e <= j < |snaps| && SoldOn(c, rules, t, snaps, e, j, sale)
  }

  lemma {:induction false} WatchPrices(c: Config, rules: Rules, t: Ticket, h: Held, snaps: seq<Snapshot>, e: nat,
      i: nat)
    requires e < i <= |snaps| && Remembers(t, h, snaps, e, i)
    requires forall m :: e < m < i ==> rules.clockLabel(snaps[m].at) < c.hardFlattenTime
    ensures forall sale :: sale in Watch(c, rules, t, h, snaps, i) ==> SoldLater(c, rules, t, snaps, e, sale)
    decreases |snaps| - i
  {
    hide LookAt, Remembers, SoldOn, EndSale;
    if i == |snaps| {
      EndPrices(c, rules, t, h, snaps, e);
    } else {
      LookPrices(c, rules, t, h, snaps, e, i);
      var look := LookAt(c, rules, t, h, snaps[i]);
      if look.Stay? {
        WatchPrices(c, rules, t, look.held, snaps, e, i + 1);
      }
    }
  }

  lemma OpeningRemembers(c: Config, t: Ticket, snaps: seq<Snapshot>, e: nat)
    requires e < |snaps|
    ensures Remembers(t, OnOpen(c, t), snaps, e, e + 1)
  {
  }

  /**
   * Every sale of a recorded position is made on a later snapshot, at the bid that snapshot shows for the
   * contract; only the hard flatten and the end of the session fall back on the last bid shown since the entry,
   * then on the bid it was picked by, then on the entry. The flatten comes on the first snapshot at its label.
   */
  lemma SalesAreMadeAtTheBid(session: Session, c: Config, rules: Rules, k: nat)
    requires ValidConfig(c) && k < |Positions(session, c, rules)|
    ensures var snaps, p := ChainSnapshots(session, c), Positions(session, c, rules)[k];
      exists e :: 0 <= e < |snaps| && snaps[e].at == p.ticket.openedAt
        && forall sale :: sale in p.sales ==> SoldLater(c, rules, p.ticket, snaps, e, sale)
  {
    var i, e, signal := PositionOpens(session, c, rules, k);
    hide Positions, Watch, SignalAt, TicketFor, FirstFrom, ChainSnapshots, InHours, SpotBars, FirstExpiration,
      FirstProduct, SoldLater, Remembers;
    var tape, p := TapeOf(session, c, rules).value, Positions(session, c, rules)[k];
    TicketIsGenuine(c, rules, tape, i, signal, tape.snaps[e]);
    OpeningRemembers(c, p.ticket, tape.snaps, e);
    WatchPrices(c, rules, p.ticket, OnOpen(c, p.ticket), tape.snaps, e, e + 1);
  }
}
