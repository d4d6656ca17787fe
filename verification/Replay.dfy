/**
 * Replaying one recorded session: bars are scanned in order, a signal opens a position at a chain
 * snapshot, every later snapshot is shown to the exit rules, and the scan resumes after the exit.
 * Times are epoch milliseconds, clock labels are minutes of the day, premiums are exact reals.
 */
module Replay {
  import opened Bars
  import opened Ladder
  import opened Market
  import opened Osi
  import opened Seqs
  import opened Sizing
  import opened Votes

  datatype Snapshot = Snapshot(
    at: int, spot: Option<real>, quotes: seq<Row>, expiration: Option<string>, underlying: Option<string>)

  datatype Session = Session(etDateKey: string, bars: seq<Bar>, snapshots: seq<Snapshot>)

  datatype Config = Config(
    strategies: seq<Id>, combineMode: Agreement, minStrategyAgreement: Option<real>, maxBars: Option<int>,
    directionsEnabled: set<Direction>, cooldownMins: nat,
    tradeWindowStart: int, tradeWindowEnd: int, hardFlattenTime: int,
    usePremiumStop: bool, premiumStopPct: real, usePremiumTarget: bool, premiumTargetPct: real,
    useTrailStop: bool, trailArmPct: real, trailPct: real, trailMinLockPct: real,
    stopAtrMult: real, targetAtrMult: real, riskPct: real, equity: real,
    underlying: Option<string>, signalBarSeconds: Option<int>, profitLock: Option<Ladder.Settings>,
    useTimeStop: bool, timeStopSeconds: Option<int>, useScaleOut: bool, paperSlippageCents: real,
    useRiskAtStop: bool, maxRiskUsd: real, settledCash: Option<real>, trendGate: bool, commission: real)

  /** Code the replay calls that is not part of this model, as functions of its arguments. */
  datatype Rules = Rules(
    clockLabel: int -> int,
    sessionStart: int -> int,
    osiExpiration: string -> string,
    atr: seq<Bar> -> Option<real>,
    evaluate: (seq<Bar>, int) -> map<Id, Direction>,
    trendAllows: (Direction, seq<Bar>, int, real) -> bool,
    select: (seq<ChainQuote>, Direction) -> Option<ChainQuote>)

  datatype Trade = Trade(
    etDateKey: string, symbol: string, direction: Direction, strategies: seq<Id>, quantity: int,
    entryPremium: real, exitPremium: real, openedAt: int, closedAt: int, holdMs: int,
    grossPnl: real, fees: real, netPnl: real, exitReason: Reason)

  predicate ValidConfig(c: Config) {
    && (c.signalBarSeconds.Some? ==> c.signalBarSeconds.value == 15 || c.signalBarSeconds.value == 60)
    && (c.underlying.Some? ==> c.underlying.value == "SPY" || c.underlying.value == "SPXW")
  }

  // ----- The chain the replay may see -----

  function InferUnderlying(spot: Option<real>): Option<string> {
    if spot.None? || spot.value <= 0.0 then None
    else Some(if spot.value >= 2000.0 then "SPXW" else "SPY")
  }

  function TagOf(s: Snapshot): Option<string> {
    if s.underlying.Some? then s.underlying else InferUnderlying(s.spot)
  }

  predicate SnapshotMatches(s: Snapshot, wanted: string) {
    var tag := TagOf(s);
    if tag.None? || tag.value == "" then false
    else if wanted == "SPY" then tag.value == "SPY"
    else tag.value == "SPXW" || tag.value == "SPX"
  }

  function TagAll(snaps: seq<Snapshot>): seq<Snapshot> {
    if snaps == [] then [] else [snaps[0].(underlying := TagOf(snaps[0]))] + TagAll(snaps[1..])
  }

  function NotAfter(): (Snapshot, Snapshot) -> bool {
    (a: Snapshot, b: Snapshot) => a.at <= b.at
  }

  function Wanted(c: Config): Option<string> {
    if c.underlying.Some? then c.underlying
    else if c.signalBarSeconds == Some(15) then Some("SPXW")
    else None
  }

  function Matching(wanted: string): Snapshot -> bool {
    (s: Snapshot) => SnapshotMatches(s, wanted)
  }

  function ChainSnapshots(session: Session, c: Config): seq<Snapshot> {
    var tagged := Sort(TagAll(session.snapshots), NotAfter());
    if Wanted(c).None? then tagged else Filter(tagged, Matching(Wanted(c).value))
  }

  // ----- Bars -----

  predicate UsesSpotBars(c: Config) {
    c.underlying.Some? || c.signalBarSeconds == Some(15)
  }

  function BarMs(c: Config): (ms: int)
    requires ValidConfig(c)
    ensures ms > 0
  {
    (if c.signalBarSeconds.Some? then c.signalBarSeconds.value else if UsesSpotBars(c) then 15 else 60) * 1000
  }

  /** The spots on record, as prints. */
  function Spots(snaps: seq<Snapshot>): seq<Print> {
    if snaps == [] then []
    else
      var last := snaps[|snaps| - 1];
      Spots(snaps[..|snaps| - 1]) + if last.spot.Some? then [Print(last.spot.value, last.at)] else []
  }

  /** The closed bars of the fold; the one still forming is left off. */
  function SpotBars(snaps: seq<Snapshot>, widthMs: int): seq<Bar>
    requires widthMs > 0
  {
    FoldPrints(Spots(snaps), widthMs).closed
  }

  method BarsFromSpots(snaps: seq<Snapshot>, widthMs: int) returns (closed: seq<Bar>)
    requires widthMs > 0
    ensures closed == SpotBars(snaps, widthMs)
  {
    var current: Option<Bar> := None;
    closed := [];
    for i := 0 to |snaps|
      invariant Fold(closed, current) == FoldPrints(Spots(snaps[..i]), widthMs)
    {
      var s := snaps[i];
      assert snaps[..i + 1][..i] == snaps[..i];
      if s.spot.Some? {
        FoldSnoc(Spots(snaps[..i]), Print(s.spot.value, s.at), widthMs);
        var step := PushPriceBar(current, s.spot.value, s.at, widthMs);
        if step.closed.Some? {
          closed := closed + [step.closed.value];
        }
        current := Some(step.current);
      } else {
        assert Spots(snaps[..i]) + [] == Spots(snaps[..i]);
      }
    }
    assert snaps[..|snaps|] == snaps;
  }

  const OPEN_LABEL: int := 570
  const CLOSE_LABEL: int := 960

  function RegularHours(rules: Rules): Bar -> bool {
    (b: Bar) => OPEN_LABEL <= rules.clockLabel(b.chartTime) < CLOSE_LABEL
  }

  function Earlier(): (Bar, Bar) -> bool {
    (a: Bar, b: Bar) => a.chartTime <= b.chartTime
  }

  function InHours(bars: seq<Bar>, rules: Rules): seq<Bar> {
    Sort(Filter(bars, RegularHours(rules)), Earlier())
  }

  /** Everything the scan reads. A bar closes `closeMs` after its chart time, as far as entries are concerned. */
  datatype Tape = Tape(
    snaps: seq<Snapshot>, bars: seq<Bar>, minutes: seq<Bar>, start: int,
    expiration: string, product: Option<string>, closeMs: int)

  predicate Given(text: Option<string>) {
    text.Some? && text.value != ""
  }

  function FirstExpiration(snaps: seq<Snapshot>): Option<string> {
    if snaps == [] then None
    else if Given(snaps[0].expiration) then snaps[0].expiration
    else FirstExpiration(snaps[1..])
  }

  function FirstProduct(snaps: seq<Snapshot>): Option<string> {
    if snaps == [] then None
    else if Given(snaps[0].underlying) then snaps[0].underlying
    else FirstProduct(snaps[1..])
  }

  /** The first expiration on record, or the one the date spells. */
  function ExpirationOf(session: Session, c: Config, rules: Rules): string {
    var found := FirstExpiration(ChainSnapshots(session, c));
    if found.Some? then found.value else rules.osiExpiration(session.etDateKey)
  }

  function TapeOf(session: Session, c: Config, rules: Rules): Option<Tape>
    requires ValidConfig(c)
  {
    var snaps := ChainSnapshots(session, c);
    var built := UsesSpotBars(c);
    var bars := InHours(if built then SpotBars(snaps, BarMs(c)) else session.bars, rules);
    if bars == [] || snaps == [] then None
    else
      var minutes := InHours(if built then SpotBars(snaps, MINUTE_MS) else session.bars, rules);
      Some(Tape(
        snaps, bars, minutes,
        if built then rules.sessionStart(bars[0].chartTime) else bars[0].chartTime,
        ExpirationOf(session, c, rules),
        if c.underlying.Some? then c.underlying else FirstProduct(snaps),
        if built then BarMs(c) else 0))
  }

  // ----- Whether a bar opens a position -----

  function LastBars(seen: seq<Bar>, maxBars: Option<int>): seq<Bar> {
    match maxBars
    case None => seen
    case Some(n) => if n > 0 then seen[Max(0, |seen| - n)..] else seen[Min(-n, |seen|)..]
  }

  predicate InWindow(c: Config, rules: Rules, at: int) {
    c.tradeWindowStart <= rules.clockLabel(at) < c.tradeWindowEnd
  }

  predicate Cooled(c: Config, at: int, lastExitAt: Option<int>) {
    lastExitAt.Some? ==> at - lastExitAt.value >= c.cooldownMins * 60_000
  }

  function AgreementOf(c: Config): Agreement {
    if c.minStrategyAgreement.Some? && c.minStrategyAgreement.value > 1.0 then Quorum(c.minStrategyAgreement.value)
    else c.combineMode
  }

  /** Bars completed by the time this one has closed. */
  function ClosedBy(at: int): Bar -> bool {
    (b: Bar) => b.chartTime + MINUTE_MS <= at
  }

  function TrendCut(c: Config, tape: Tape, bar: Bar): int {
    bar.chartTime + if UsesSpotBars(c) then tape.closeMs else MINUTE_MS
  }

  /** The signal of a bar that passes every gate. */
  function SignalAt(c: Config, rules: Rules, tape: Tape, i: nat, lastExitAt: Option<int>): Option<Signal>
    requires i < |tape.bars|
  {
    var bar := tape.bars[i];
    var window := LastBars(tape.bars[..i + 1], c.maxBars);
    if !InWindow(c, rules, bar.chartTime) || !Cooled(c, bar.chartTime, lastExitAt) || |window| < 6 then None
    else
      var signal := Combined(c.strategies, rules.evaluate(window, tape.start), bar.chartTime, AgreementOf(c));
      if signal.None? || signal.value.direction !in c.directionsEnabled then None
      else if c.trendGate && !rules.trendAllows(
        signal.value.direction, Filter(tape.minutes, ClosedBy(TrendCut(c, tape, bar))), tape.start, bar.close) then None
      else signal
  }

  /** The first snapshot at or after a time; the length when there is none. */
  function FirstFrom(snaps: seq<Snapshot>, at: int): (k: nat)
    ensures k <= |snaps|
    ensures k < |snaps| ==> snaps[k].at >= at
  {
    if snaps == [] || snaps[0].at >= at then 0 else 1 + FirstFrom(snaps[1..], at)
  }

  /** An open position's terms. */
  datatype Ticket = Ticket(
    direction: Direction, strategies: seq<Id>, symbol: string, strike: Option<real>, right: Right,
    quantity: int, entry: real, openedAt: int, bid: Option<real>, stop: Option<real>,
    levels: Levels, breakeven: real, barClose: real)

  function Sized(c: Config, entry: real): int {
    match c.profitLock
    case Some(ladder) =>
      SizeAtRisk(Risk(
        c.useRiskAtStop, c.maxRiskUsd, entry,
        Some(DisasterStopBid(entry, 1, CommissionForRoundTrip(1, c.commission), ladder)),
        if c.settledCash.Some? then c.settledCash.value else c.equity, c.equity, c.riskPct)).qty
    case None => SizePosition(ComputeBudget(c.equity, c.equity, c.riskPct), entry)
  }

  const ATR_FLOOR: real := 0.5

  /** A premium moved by a percentage. */
  function Moved(premium: real, pct: real): real {
    premium * (1.0 + pct / 100.0)
  }

  /** A level that many ATRs from the spot, on the side the sign says. */
  function Away(spot: real, sign: real, atr: real, mult: real): real {
    spot + sign * (atr * mult)
  }

  function LevelsFor(c: Config, direction: Direction, entry: real, spot: real, atr: Option<real>): Levels {
    if c.profitLock.Some? then NO_LEVELS
    else
      var used := if atr.Some? && atr.value > 0.0 then atr.value else ATR_FLOOR;
      var sign := if direction == CALL then 1.0 else -1.0;
      Levels(
        if c.usePremiumTarget then Some(Moved(entry, c.premiumTargetPct)) else None,
        Some(Away(spot, -sign, used, c.stopAtrMult)),
        Some(Away(spot, sign, used, c.targetAtrMult)))
  }

  function StopFor(c: Config, entry: real, quantity: int): Option<real> {
    match c.profitLock
    case Some(ladder) => Some(DisasterStopBid(entry, quantity, CommissionForRoundTrip(quantity, c.commission), ladder))
    case None => if c.usePremiumStop then Some(Moved(entry, -c.premiumStopPct)) else None
  }

  /** The breakeven the older trail is given; the source passes the quantity where a commission is expected. */
  function TrailBreakeven(entry: real, quantity: int): real {
    BreakevenBidFor(entry, quantity as real)
  }

  /** The position a signal opens on a snapshot, if a contract is found and one can be afforded. */
  function TicketFor(c: Config, rules: Rules, tape: Tape, i: nat, signal: Signal, s: Snapshot): Option<Ticket>
    requires i < |tape.bars|
  {
    var bar := tape.bars[i];
    var root := if tape.product.Some? then tape.product else s.underlying;
    var picked := rules.select(QuotesFromSnapshot(s.quotes, tape.expiration, root), signal.direction);
    if picked.None? || picked.value.ask.None? || picked.value.ask.value == 0.0 then None
    else
      var entry := Round2(picked.value.ask.value + c.paperSlippageCents / 100.0);
      var quantity := Sized(c, entry);
      if quantity < 1 then None
      else
        Some(Ticket(
          signal.direction, signal.strategies, picked.value.symbol, StrikeOf(picked.value.symbol),
          if signal.direction == CALL then 0 else 1,
          quantity, entry, s.at, picked.value.bid, StopFor(c, entry, quantity),
          LevelsFor(c, signal.direction, entry, OrElse(s.spot, bar.close),
            rules.atr(LastBars(tape.bars[..i + 1], c.maxBars))),
          TrailBreakeven(entry, quantity), bar.close))
  }

  // ----- Holding a position -----

  datatype Held = Held(
    stop: Option<real>, source: Source, peak: Option<real>, peakAt: int, armed: bool,
    scaledOut: bool, quantity: int, lastBid: Option<real>)

  datatype Sale = Sale(quantity: int, premium: real, at: int, reason: Reason)

  /** What one snapshot does to an open position. */
  datatype Look = Stay(held: Held, sold: Option<Sale>) | Leave(sale: Sale)

  function OnOpen(c: Config, t: Ticket): Held {
    Held(t.stop, INITIAL, if c.profitLock.Some? then t.bid else None, t.openedAt, false, false, t.quantity, t.bid)
  }

  /** The tick the ladder is shown. */
  function LadderTick(c: Config, ladder: Ladder.Settings, t: Ticket, h: Held, bid: real, s: Snapshot): Tick {
    var peakAt := if h.peak.None? || bid > h.peak.value then s.at else h.peakAt;
    Tick(
      Lock(t.entry, bid, h.peak, h.stop, h.quantity, CommissionForRoundTrip(h.quantity, c.commission), ladder),
      Some(t.direction), OrElse(s.spot, t.barClose), NO_LEVELS,
      c.useScaleOut, h.scaledOut, h.quantity, t.entry,
      Clock(c.useTimeStop, Some(t.openedAt), Some(peakAt), Some(s.at), c.timeStopSeconds))
  }

  function LadderLook(c: Config, ladder: Ladder.Settings, t: Ticket, h: Held, bid: real, s: Snapshot): Look {
    var tick := LadderTick(c, ladder, t, h, bid, s);
    var decision := DecideTickExit(tick);
    var next := h.(lastBid := Some(bid), peakAt := tick.clock.peakAt.value,
                   peak := Some(decision.ratchet.peak), stop := decision.ratchet.stop);
    match decision
    case Hold(_) => Stay(next, None)
    case ScaleOut(q, _) =>
      Stay(next.(quantity := h.quantity - q, scaledOut := true), Some(Sale(q, bid, s.at, SCALE_OUT)))
    case Exit(reason, _, _) => Leave(Sale(h.quantity, bid, s.at, reason))
  }

  function Trailed(c: Config, t: Ticket, h: Held, bid: real): Held {
    if !c.useTrailStop then h
    else
      var r := RatchetPremiumStop(Trail(
        t.entry, bid, h.peak, h.stop, h.armed, c.trailArmPct, c.trailPct,
        t.breakeven, Moved(t.entry, c.trailMinLockPct)));
      h.(peak := Some(r.peak), armed := r.armed, stop := r.stop, source := r.source)
  }

  function TrailLook(c: Config, t: Ticket, h: Held, bid: real, s: Snapshot): Look {
    var next := Trailed(c, t, h.(lastBid := Some(bid)), bid);
    match DecideSoftExit(Some(t.direction), OrElse(s.spot, t.barClose), Some(bid), next.stop, next.source, t.levels)
    case None => Stay(next, None)
    case Some(reason) => Leave(Sale(h.quantity, bid, s.at, reason))
  }

  function LookAt(c: Config, rules: Rules, t: Ticket, h: Held, s: Snapshot): Look {
    var bid := FirstBid(s.quotes, t.strike, t.right);
    if rules.clockLabel(s.at) >= c.hardFlattenTime then
      Leave(Sale(h.quantity, OrElse(bid, OrElse(h.lastBid, t.entry)), s.at, HARD_FLATTEN_EOD))
    else if bid.None? then Stay(h, None)
    else if c.profitLock.Some? then LadderLook(c, c.profitLock.value, t, h, bid.value, s)
    else TrailLook(c, t, h, bid.value, s)
  }

  function EndSale(t: Ticket, h: Held, last: Snapshot): Sale {
    Sale(h.quantity, OrElse(FirstBid(last.quotes, t.strike, t.right), OrElse(h.lastBid, t.entry)), last.at, SESSION_END)
  }

  function AsSeq<T>(x: Option<T>): seq<T> {
    if x.Some? then [x.value] else []
  }

  /** The sales of a position held from snapshot `i` on; the last one closes it. */
  function Watch(c: Config, rules: Rules, t: Ticket, h: Held, snaps: seq<Snapshot>, i: nat): (sales: seq<Sale>)
    requires snaps != [] && i <= |snaps|
    ensures sales != []
    decreases |snaps| - i
  {
    if i == |snaps| then [EndSale(t, h, snaps[|snaps| - 1])]
    else
      match LookAt(c, rules, t, h, snaps[i])
      case Leave(sale) => [sale]
      case Stay(next, sold) => AsSeq(sold) + Watch(c, rules, t, next, snaps, i + 1)
  }

  method WatchPosition(c: Config, rules: Rules, t: Ticket, snaps: seq<Snapshot>, from: nat) returns (sales: seq<Sale>)
    requires snaps != [] && from <= |snaps|
    ensures sales == Watch(c, rules, t, OnOpen(c, t), snaps, from)
  {
    hide LookAt, EndSale;
    var h := OnOpen(c, t);
    sales := [];
    for i := from to |snaps|
      invariant sales + Watch(c, rules, t, h, snaps, i) == Watch(c, rules, t, OnOpen(c, t), snaps, from)
    {
      var look := LookAt(c, rules, t, h, snaps[i]);
      if look.Leave? {
        sales := sales + [look.sale];
        return;
      }
      assert sales + (AsSeq(look.sold) + Watch(c, rules, t, look.held, snaps, i + 1))
          == sales + AsSeq(look.sold) + Watch(c, rules, t, look.held, snaps, i + 1);
      sales := sales + AsSeq(look.sold);
      h := look.held;
    }
    sales := sales + [EndSale(t, h, snaps[|snaps| - 1])];
  }

  // ----- The scan -----

  /** A position and the sales that closed it; `barAt` is the signal bar's chart time. */
  datatype Position = Position(ticket: Ticket, barAt: int, sales: seq<Sale>)

  function ExitAt(sales: seq<Sale>): int
    requires sales != []
  {
    sales[|sales| - 1].at
  }

  /** The first bar that starts after a time; the length when there is none. */
  function FirstAfter(bars: seq<Bar>, at: int): (k: nat)
    ensures k <= |bars|
    ensures k < |bars| ==> bars[k].chartTime > at
    ensures forall j :: 0 <= j < k ==> bars[j].chartTime <= at
  {
    if bars == [] || bars[0].chartTime > at then 0 else 1 + FirstAfter(bars[1..], at)
  }

  predicate InOrder(snaps: seq<Snapshot>) {
    forall i, j :: 0 <= i < j < |snaps| ==> snaps[i].at <= snaps[j].at
  }

  predicate BarsInOrder(bars: seq<Bar>) {
    forall i, j :: 0 <= i < j < |bars| ==> bars[i].chartTime <= bars[j].chartTime
  }

  predicate Ordered(tape: Tape) {
    tape.snaps != [] && InOrder(tape.snaps) && BarsInOrder(tape.bars) && tape.closeMs >= 0
  }

  lemma LookIsNow(c: Config, rules: Rules, t: Ticket, h: Held, s: Snapshot)
    ensures var look := LookAt(c, rules, t, h, s);
      && (look.Leave? ==> look.sale.at == s.at)
      && (look.Stay? && look.sold.Some? ==> look.sold.value.at == s.at)
  {
  }

  /** Every sale of a position held from snapshot `i` is stamped no earlier than a time all of them follow. */
  lemma {:induction false} SalesFollow(c: Config, rules: Rules, t: Ticket, h: Held, snaps: seq<Snapshot>, i: nat,
      at: int)
    requires snaps != [] && i <= |snaps| && snaps[|snaps| - 1].at >= at
    requires forall j :: i <= j < |snaps| ==> snaps[j].at >= at
    ensures forall k :: 0 <= k < |Watch(c, rules, t, h, snaps, i)| ==> Watch(c, rules, t, h, snaps, i)[k].at >= at
    decreases |snaps| - i
  {
    hide LookAt;
    if i < |snaps| {
      LookIsNow(c, rules, t, h, snaps[i]);
      var look := LookAt(c, rules, t, h, snaps[i]);
      if look.Stay? {
        SalesFollow(c, rules, t, look.held, snaps, i + 1, at);
      }
    }
  }

  /** The bar the scan resumes at is later than the one it left: the replay terminates. */
  lemma ResumesLater(c: Config, rules: Rules, tape: Tape, i: nat, t: Ticket, e: nat)
    requires Ordered(tape) && i < |tape.bars| && e < |tape.snaps|
    requires tape.snaps[e].at >= tape.bars[i].chartTime + tape.closeMs
    ensures var exitAt := ExitAt(Watch(c, rules, t, OnOpen(c, t), tape.snaps, e + 1));
      exitAt >= tape.snaps[e].at && FirstAfter(tape.bars, exitAt) > i
  {
    hide Watch;
    SalesFollow(c, rules, t, OnOpen(c, t), tape.snaps, e + 1, tape.snaps[e].at);
    var exitAt := ExitAt(Watch(c, rules, t, OnOpen(c, t), tape.snaps, e + 1));
    forall j | 0 <= j <= i ensures tape.bars[j].chartTime <= exitAt {
    }
  }

  /** The positions opened from bar `i` on, the last exit before it given. */
  function Scan(c: Config, rules: Rules, tape: Tape, i: nat, lastExitAt: Option<int>): seq<Position>
    requires Ordered(tape) && i <= |tape.bars|
    decreases |tape.bars| - i
  {
    if i == |tape.bars| then []
    else
      var bar := tape.bars[i];
      match SignalAt(c, rules, tape, i, lastExitAt)
      case None => Scan(c, rules, tape, i + 1, lastExitAt)
      case Some(signal) =>
        var e := FirstFrom(tape.snaps, bar.chartTime + tape.closeMs);
        if e == |tape.snaps| then []
        else
          match TicketFor(c, rules, tape, i, signal, tape.snaps[e])
          case None => Scan(c, rules, tape, i + 1, lastExitAt)
          case Some(t) =>
            var sales := Watch(c, rules, t, OnOpen(c, t), tape.snaps, e + 1);
            ResumesLater(c, rules, tape, i, t, e);
            [Position(t, bar.chartTime, sales)]
              + Scan(c, rules, tape, FirstAfter(tape.bars, ExitAt(sales)), Some(ExitAt(sales)))
  }

  // ----- Trade rows -----

  function GrossOf(premium: real, entry: real, quantity: int): real {
    (premium - entry) * quantity as real * 100.0
  }

  function RecordTrade(etDateKey: string, commission: real, t: Ticket, sale: Sale): Trade {
    var gross := GrossOf(sale.premium, t.entry, sale.quantity);
    var fees := CommissionForRoundTrip(sale.quantity, commission);
    Trade(etDateKey, t.symbol, t.direction, t.strategies, sale.quantity, t.entry, sale.premium,
      t.openedAt, sale.at, sale.at - t.openedAt, Round2(gross), fees, Round2(gross - fees), sale.reason)
  }

  function RecordSales(etDateKey: string, commission: real, t: Ticket, sales: seq<Sale>): seq<Trade> {
    seq(|sales|, k requires 0 <= k < |sales| => RecordTrade(etDateKey, commission, t, sales[k]))
  }

  function RecordAll(etDateKey: string, commission: real, positions: seq<Position>): seq<Trade> {
    if positions == [] then []
    else
      RecordSales(etDateKey, commission, positions[0].ticket, positions[0].sales)
      + RecordAll(etDateKey, commission, positions[1..])
  }

  lemma SortedTape(session: Session, c: Config, rules: Rules)
    requires ValidConfig(c) && TapeOf(session, c, rules).Some?
    ensures Ordered(TapeOf(session, c, rules).value)
  {
    hide Sort, Filter, SpotBars, FirstExpiration, FirstProduct, SnapshotMatches;
    ChainIsInOrder(session, c);
    HoursAreInOrder(if UsesSpotBars(c) then SpotBars(ChainSnapshots(session, c), BarMs(c)) else session.bars, rules);
  }

  lemma ChainIsInOrder(session: Session, c: Config)
    ensures InOrder(ChainSnapshots(session, c))
  {
    hide Sort, Filter, SnapshotMatches, TagAll;
    var tagged := Sort(TagAll(session.snapshots), NotAfter());
    SortIsSorted(TagAll(session.snapshots), NotAfter());
    if Wanted(c).Some? {
      FilterSorted(tagged, NotAfter(), Matching(Wanted(c).value));
    }
    var chain := ChainSnapshots(session, c);
    assert forall i, j :: 0 <= i < j < |chain| ==> NotAfter()(chain[i], chain[j]);
  }

  lemma HoursAreInOrder(bars: seq<Bar>, rules: Rules)
    ensures BarsInOrder(InHours(bars, rules))
  {
    hide Sort, Filter;
    SortIsSorted(Filter(bars, RegularHours(rules)), Earlier());
    var sorted := InHours(bars, rules);
    assert forall i, j :: 0 <= i < j < |sorted| ==> Earlier()(sorted[i], sorted[j]);
  }

  function Positions(session: Session, c: Config, rules: Rules): seq<Position>
    requires ValidConfig(c)
  {
    match TapeOf(session, c, rules)
    case None => []
    case Some(tape) =>
      SortedTape(session, c, rules);
      Scan(c, rules, tape, 0, None)
  }

  function Replayed(session: Session, c: Config, rules: Rules): seq<Trade>
    requires ValidConfig(c)
  {
    RecordAll(session.etDateKey, c.commission, Positions(session, c, rules))
  }

  lemma {:induction false} RecordSnoc(etDateKey: string, commission: real, positions: seq<Position>, p: Position)
    ensures RecordAll(etDateKey, commission, positions + [p])
         == RecordAll(etDateKey, commission, positions) + RecordSales(etDateKey, commission, p.ticket, p.sales)
  {
    if positions == [] {
      assert [p][1..] == [] && [] + [p] == [p];
    } else {
      assert (positions + [p])[1..] == positions[1..] + [p];
      RecordSnoc(etDateKey, commission, positions[1..], p);
    }
  }

  lemma ReplayedUnfolds(session: Session, c: Config, rules: Rules)
    requires ValidConfig(c)
    ensures TapeOf(session, c, rules).None? ==> Replayed(session, c, rules) == []
    ensures TapeOf(session, c, rules).Some? ==>
      && Ordered(TapeOf(session, c, rules).value)
      && Replayed(session, c, rules)
        == RecordAll(session.etDateKey, c.commission, Scan(c, rules, TapeOf(session, c, rules).value, 0, None))
  {
    hide TapeOf, Scan, Ordered;
    if TapeOf(session, c, rules).Some? {
      SortedTape(session, c, rules);
    }
  }

  /** The position the scan opens at a bar, if it opens one. */
  function OpenedAt(c: Config, rules: Rules, tape: Tape, i: nat, signal: Signal, e: nat): Option<Position>
    requires Ordered(tape) && i < |tape.bars| && e < |tape.snaps|
  {
    match TicketFor(c, rules, tape, i, signal, tape.snaps[e])
    case None => None
    case Some(t) => Some(Position(t, tape.bars[i].chartTime, Watch(c, rules, t, OnOpen(c, t), tape.snaps, e + 1)))
  }

  /** One turn of the loop, branch by branch. */
  lemma ScanUnfolds(c: Config, rules: Rules, tape: Tape, i: nat, lastExitAt: Option<int>)
    requires Ordered(tape) && i < |tape.bars|
    ensures var scan, signal := Scan(c, rules, tape, i, lastExitAt), SignalAt(c, rules, tape, i, lastExitAt);
      && (signal.None? ==> scan == Scan(c, rules, tape, i + 1, lastExitAt))
      && (signal.Some? ==>
          var e := FirstFrom(tape.snaps, tape.bars[i].chartTime + tape.closeMs);
          && (e == |tape.snaps| ==> scan == [])
          && (e < |tape.snaps| ==>
              var p := OpenedAt(c, rules, tape, i, signal.value, e);
              && (p.None? ==> scan == Scan(c, rules, tape, i + 1, lastExitAt))
              && (p.Some? ==>
                  && p.value.sales != [] && ExitAt(p.value.sales) >= tape.snaps[e].at
                  && FirstAfter(tape.bars, ExitAt(p.value.sales)) > i
                  && scan == [p.value]
                    + Scan(c, rules, tape, FirstAfter(tape.bars, ExitAt(p.value.sales)), Some(ExitAt(p.value.sales))))))
  {
    hide Watch, SignalAt, TicketFor, FirstFrom, FirstAfter, Ordered;
    var signal := SignalAt(c, rules, tape, i, lastExitAt);
    var e := FirstFrom(tape.snaps, tape.bars[i].chartTime + tape.closeMs);
    if signal.Some? && e < |tape.snaps| {
      var t := TicketFor(c, rules, tape, i, signal.value, tape.snaps[e]);
      if t.Some? {
        ResumesLater(c, rules, tape, i, t.value, e);
      }
    }
  }

  lemma ScanEnds(c: Config, rules: Rules, tape: Tape, lastExitAt: Option<int>)
    requires Ordered(tape)
    ensures Scan(c, rules, tape, |tape.bars|, lastExitAt) == []
  {
  }

  method ReplaySession(session: Session, c: Config, rules: Rules) returns (trades: seq<Trade>)
    requires ValidConfig(c)
    ensures trades == Replayed(session, c, rules)
  {
    hide Replayed, Positions, ChainSnapshots, SpotBars, InHours, FirstExpiration, FirstProduct,
      Watch, SignalAt, TicketFor, RecordSales, RecordAll, Scan, Ordered, FirstFrom, FirstAfter;
    trades := [];
    ReplayedUnfolds(session, c, rules);
    var snaps := ChainSnapshots(session, c);
    var built := UsesSpotBars(c);
    var raw, rawMinutes := session.bars, session.bars;
    if built {
      raw := BarsFromSpots(snaps, BarMs(c));
      rawMinutes := BarsFromSpots(snaps, MINUTE_MS);
    }
    var bars := InHours(raw, rules);
    if bars == [] || snaps == [] { return; }
    var found := FirstExpiration(snaps);
    var tape := Tape(
      snaps, bars, InHours(rawMinutes, rules),
      if built then rules.sessionStart(bars[0].chartTime) else bars[0].chartTime,
      if found.Some? then found.value else rules.osiExpiration(session.etDateKey),
      if c.underlying.Some? then c.underlying else FirstProduct(snaps),
      if built then BarMs(c) else 0);
    assert TapeOf(session, c, rules) == Some(tape);
    trades := ScanTape(session.etDateKey, c, rules, tape);
  }

  /** The outer loop. */
  method ScanTape(etDateKey: string, c: Config, rules: Rules, tape: Tape) returns (trades: seq<Trade>)
    requires Ordered(tape)
    ensures trades == RecordAll(etDateKey, c.commission, Scan(c, rules, tape, 0, None))
  {
    hide Watch, SignalAt, TicketFor, RecordSales, RecordAll, Scan, Ordered, FirstFrom, FirstAfter;
    trades := [];
    var lastExitAt: Option<int> := None;
    var barIndex := 0;
    ghost var taken: seq<Position> := [];
    RecordNone(etDateKey, c.commission);
    assert [] + Scan(c, rules, tape, 0, None) == Scan(c, rules, tape, 0, None);
    while barIndex < |tape.bars|
      invariant barIndex <= |tape.bars|
      invariant trades == RecordAll(etDateKey, c.commission, taken)
      invariant taken + Scan(c, rules, tape, barIndex, lastExitAt) == Scan(c, rules, tape, 0, None)
    {
      ScanUnfolds(c, rules, tape, barIndex, lastExitAt);
      var bar := tape.bars[barIndex];
      var signal := SignalAt(c, rules, tape, barIndex, lastExitAt);
      if signal.None? {
        barIndex := barIndex + 1;
        continue;
      }
      var e := FirstFrom(tape.snaps, bar.chartTime + tape.closeMs);
      if e == |tape.snaps| {
        assert taken + [] == taken;
        return;
      }
      var ticket := TicketFor(c, rules, tape, barIndex, signal.value, tape.snaps[e]);
      if ticket.None? {
        barIndex := barIndex + 1;
        continue;
      }
      var sales := WatchPosition(c, rules, ticket.value, tape.snaps, e + 1);
      var resume := FirstAfter(tape.bars, ExitAt(sales));
      ghost var p := Position(ticket.value, bar.chartTime, sales);
      RecordSnoc(etDateKey, c.commission, taken, p);
      assert taken + ([p] + Scan(c, rules, tape, resume, Some(ExitAt(sales))))
          == (taken + [p]) + Scan(c, rules, tape, resume, Some(ExitAt(sales)));
      taken := taken + [p];
      trades := trades + RecordSales(etDateKey, c.commission, ticket.value, sales);
      lastExitAt := Some(ExitAt(sales));
      barIndex := resume;
    }
    ScanEnds(c, rules, tape, lastExitAt);
    assert taken + [] == taken;
  }

  lemma RecordNone(etDateKey: string, commission: real)
    ensures RecordAll(etDateKey, commission, []) == []
  {
  }
}
