/** The replay's exit loop against the live one, over whole runs of ticks. */
module LiveReplay {
  import opened Ladder
  import LadderLaws
  import opened Live
  import opened Market
  import opened Osi
  import opened Replay
  import opened Seqs

  /** A positive bid at a time, with whatever the underlying showed. */
  datatype Quote = Quote(at: int, bid: real, spot: Option<real>)

  /** What can be read off either loop after a tick: the peak, the stop, and what was sold. */
  datatype Trace = Trace(peak: Option<real>, stop: Option<real>, sold: Option<Slice>)

  function LiveTrace(terms: Terms, p: Open, now: Quote): Trace {
    var after := AfterTick(terms, p, now.at, now.bid, now.spot);
    var seen :=
      if after.position.Some? then after.position.value
      else Ratcheted(p, TickFor(terms, p, now.at, now.bid, now.spot));
    Trace(seen.peak, seen.stop, after.sold)
  }

  /** One trace a tick, until the position is closed. */
  function LiveRun(terms: Terms, p: Open, quotes: seq<Quote>): seq<Trace>
    decreases |quotes|
  {
    if quotes == [] then []
    else
      var after := AfterTick(terms, p, quotes[0].at, quotes[0].bid, quotes[0].spot).position;
      [LiveTrace(terms, p, quotes[0])] + if after.None? then [] else LiveRun(terms, after.value, quotes[1..])
  }

  /** The snapshot shows the bid, at that time, before the hard flatten. */
  predicate Shows(c: Config, rules: Rules, t: Ticket, s: Snapshot, q: Quote) {
    && s.at == q.at
    && FirstBid(s.quotes, t.strike, t.right) == Some(q.bid)
    && q.bid > 0.0
    && rules.clockLabel(s.at) < c.hardFlattenTime
  }

  predicate AllShow(c: Config, rules: Rules, t: Ticket, snaps: seq<Snapshot>, quotes: seq<Quote>) {
    |snaps| == |quotes| && forall i :: 0 <= i < |snaps| ==> Shows(c, rules, t, snaps[i], quotes[i])
  }

  function SoldAs(sale: Sale): Slice {
    Slice(sale.quantity, sale.reason, sale.premium)
  }

  function ReplayTrace(c: Config, rules: Rules, t: Ticket, h: Held, s: Snapshot): Trace
    requires c.profitLock.Some?
  {
    match LookAt(c, rules, t, h, s)
    case Stay(next, sold) => Trace(next.peak, next.stop, if sold.Some? then Some(SoldAs(sold.value)) else None)
    case Leave(sale) =>
      var r := DecideTickExit(LadderTick(c, c.profitLock.value, t, h, sale.premium, s)).ratchet;
      Trace(Some(r.peak), r.stop, Some(SoldAs(sale)))
  }

  function ReplayRun(c: Config, rules: Rules, t: Ticket, h: Held, snaps: seq<Snapshot>): seq<Trace>
    requires c.profitLock.Some?
    decreases |snaps|
  {
    if snaps == [] then []
    else
      var look := LookAt(c, rules, t, h, snaps[0]);
      [ReplayTrace(c, rules, t, h, snaps[0])]
        + if look.Leave? then [] else ReplayRun(c, rules, t, look.held, snaps[1..])
  }

  /** The same trade under both: one entry, one ladder, one set of switches. */
  predicate SameTerms(terms: Terms, c: Config, t: Ticket) {
    && c.profitLock == Some(terms.ladder) && c.commission == terms.commission
    && c.useScaleOut == terms.useScaleOut && c.useTimeStop == terms.useTimeStop
      && c.timeStopSeconds == terms.timeStopSeconds
    && t.entry == terms.entry && t.direction == terms.direction && t.openedAt == terms.openedAt
  }

  /** The two loops hold the same position. */
  predicate SameHolding(p: Open, h: Held) {
    && p.quantity == h.quantity && p.peak == h.peak && p.peakAt == Some(h.peakAt) && p.stop == h.stop
    && p.scaledOut == h.scaledOut
  }

  /** Both start alike: the stop at the disaster level, the peak at the bid the contract was picked by. */
  lemma EntriesMatch(terms: Terms, c: Config, t: Ticket, p: Open)
    requires SameTerms(terms, c, t) && t.stop == StopFor(c, t.entry, t.quantity) && t.bid.Some?
    requires p == Entered(terms, t.quantity, t.bid.value)
    ensures SameHolding(p, OnOpen(c, t))
  {
  }

  /** The ladder has no level on the underlying, so the spot does not matter to it. */
  lemma SpotIsIgnored(tick: Tick, other: Tick)
    requires tick.levels == NO_LEVELS && other == tick.(spot := other.spot)
    ensures DecideTickExit(tick) == DecideTickExit(other)
  {
  }

  lemma TicksMatch(terms: Terms, c: Config, rules: Rules, t: Ticket, p: Open, h: Held, s: Snapshot, q: Quote)
    requires SameTerms(terms, c, t) && SameHolding(p, h) && Shows(c, rules, t, s, q)
    ensures DecideTickExit(TickFor(terms, p, q.at, q.bid, q.spot))
         == DecideTickExit(LadderTick(c, terms.ladder, t, h, q.bid, s))
    ensures TickFor(terms, p, q.at, q.bid, q.spot).clock.peakAt
         == LadderTick(c, terms.ladder, t, h, q.bid, s).clock.peakAt
  {
    hide DecideTickExit, CommissionForRoundTrip;
    SpotIsIgnored(TickFor(terms, p, q.at, q.bid, q.spot), LadderTick(c, terms.ladder, t, h, q.bid, s));
  }

  /**
   * A scale-out on this tick leaves the stop below breakeven, where the live loop raises it and the replay does
   * not.
   */
  predicate RaisesStop(terms: Terms, p: Open, q: Quote) {
    var decision := DecideTickExit(TickFor(terms, p, q.at, q.bid, q.spot));
    decision.ScaleOut? && Raised(decision.ratchet.stop, MaxR(OrElse(decision.ratchet.stop, 0.0), ScaleBreakeven(terms)))
  }

  /** No tick of the live run does. */
  predicate NeverRaises(terms: Terms, p: Open, quotes: seq<Quote>)
    decreases |quotes|
  {
    if quotes == [] then true
    else
      var after := AfterTick(terms, p, quotes[0].at, quotes[0].bid, quotes[0].spot).position;
      !RaisesStop(terms, p, quotes[0]) && (after.Some? ==> NeverRaises(terms, after.value, quotes[1..]))
  }

  /** One tick: the same trace, and the same holding after it, exactly when no stop is raised. */
  lemma StepsMatchExactly(terms: Terms, c: Config, rules: Rules, t: Ticket, p: Open, h: Held, s: Snapshot, q: Quote)
    requires SameTerms(terms, c, t) && SameHolding(p, h) && Shows(c, rules, t, s, q)
    ensures c.profitLock.Some?
    ensures var after, look := AfterTick(terms, p, q.at, q.bid, q.spot), LookAt(c, rules, t, h, s);
      && (LiveTrace(terms, p, q) == ReplayTrace(c, rules, t, h, s) <==> !RaisesStop(terms, p, q))
      && (after.position.None? <==> look.Leave?)
      && (!RaisesStop(terms, p, q) && look.Stay? ==> SameHolding(after.position.value, look.held))
  {
    hide DecideTickExit, CommissionForRoundTrip, TickFor, LadderTick, FirstBid;
    TicksMatch(terms, c, rules, t, p, h, s, q);
    ExitsAreFull(TickFor(terms, p, q.at, q.bid, q.spot));
    QuantitiesMatch(terms, p, q);
    BidIsTheTicks(terms, p, q);
    BidIsTheSnapshots(c, t, h, s, terms.ladder, q.bid);
  }

  lemma ExitsAreFull(tick: Tick)
    ensures DecideTickExit(tick).Exit? ==> DecideTickExit(tick).quantity == tick.quantity
    ensures DecideTickExit(tick).ratchet.stop.Some?
  {
  }

  lemma QuantitiesMatch(terms: Terms, p: Open, q: Quote)
    ensures TickFor(terms, p, q.at, q.bid, q.spot).quantity == p.quantity
  {
  }

  lemma BidIsTheTicks(terms: Terms, p: Open, q: Quote)
    ensures TickFor(terms, p, q.at, q.bid, q.spot).lock.bid == q.bid
  {
  }

  lemma BidIsTheSnapshots(c: Config, t: Ticket, h: Held, s: Snapshot, ladder: Ladder.Settings, bid: real)
    ensures LadderTick(c, ladder, t, h, bid, s).clock.peakAt.Some?
  {
  }

  /**
   * Replay refines live: on the same bids both loops show the same peak and stop after every tick and
   * sell the same slices for the same reasons, exactly when no scale-out leaves the stop below breakeven.
   */
  lemma {:induction false} ReplayMatchesLiveExactly(
    terms: Terms, c: Config, rules: Rules, t: Ticket, p: Open, h: Held, snaps: seq<Snapshot>, quotes: seq<Quote>)
    requires SameTerms(terms, c, t) && SameHolding(p, h) && AllShow(c, rules, t, snaps, quotes)
    ensures c.profitLock.Some?
    ensures LiveRun(terms, p, quotes) == ReplayRun(c, rules, t, h, snaps) <==> NeverRaises(terms, p, quotes)
    decreases |quotes|
  {
    hide AfterTick, LookAt, LiveTrace, ReplayTrace, RaisesStop, SameTerms, SameHolding, FirstBid;
    LadderIsSet(terms, c, t);
    if quotes != [] {
      var s, q := snaps[0], quotes[0];
      assert Shows(c, rules, t, s, q);
      StepsMatchExactly(terms, c, rules, t, p, h, s, q);
      var after, look := AfterTick(terms, p, q.at, q.bid, q.spot), LookAt(c, rules, t, h, s);
      var live, replay := LiveRun(terms, p, quotes), ReplayRun(c, rules, t, h, snaps);
      assert live[0] == LiveTrace(terms, p, q) && replay[0] == ReplayTrace(c, rules, t, h, s);
      if look.Stay? && !RaisesStop(terms, p, q) {
        ReplayMatchesLiveExactly(terms, c, rules, t, after.position.value, look.held, snaps[1..], quotes[1..]);
        assert live[1..] == LiveRun(terms, after.position.value, quotes[1..]);
        assert replay[1..] == ReplayRun(c, rules, t, look.held, snaps[1..]);
      }
    }
  }

  lemma LadderIsSet(terms: Terms, c: Config, t: Ticket)
    requires SameTerms(terms, c, t)
    ensures c.profitLock.Some?
  {
  }

  lemma OneContractNeverRaises(terms: Terms, p: Open, q: Quote)
    requires p.quantity == 1 || !terms.useScaleOut
    ensures !RaisesStop(terms, p, q)
    ensures var after := AfterTick(terms, p, q.at, q.bid, q.spot);
      after.position.Some? ==> after.position.value.quantity == p.quantity
  {
    hide RatchetProfitLock, TimeStopDue, DecideSoftExit;
  }

  /** One contract, or no scale-out: the loops never part. */
  lemma {:induction false} OneContractRunsMatch(
    terms: Terms, c: Config, rules: Rules, t: Ticket, p: Open, h: Held, snaps: seq<Snapshot>, quotes: seq<Quote>)
    requires SameTerms(terms, c, t) && SameHolding(p, h) && AllShow(c, rules, t, snaps, quotes)
    requires p.quantity == 1 || !terms.useScaleOut
    ensures c.profitLock.Some?
    ensures LiveRun(terms, p, quotes) == ReplayRun(c, rules, t, h, snaps)
  {
    ReplayMatchesLiveExactly(terms, c, rules, t, p, h, snaps, quotes);
    SmallNeverRaises(terms, p, quotes);
  }

  lemma {:induction false} SmallNeverRaises(terms: Terms, p: Open, quotes: seq<Quote>)
    requires p.quantity == 1 || !terms.useScaleOut
    ensures NeverRaises(terms, p, quotes)
    decreases |quotes|
  {
    hide AfterTick, RaisesStop;
    if quotes != [] {
      OneContractNeverRaises(terms, p, quotes[0]);
      var after := AfterTick(terms, p, quotes[0].at, quotes[0].bid, quotes[0].spot);
      if after.position.Some? {
        SmallNeverRaises(terms, after.position.value, quotes[1..]);
      }
    }
  }

  // ----- Read off before the run -----

  /**
   * The stop a scale-out can find at worst: the ladder's level at ten percent up, or the disaster level when
   * fees put that higher, since a bid has to clear it first.
   */
  function ScaleLevel(terms: Terms, quantity: int): real {
    var disaster := LadderLaws.Disaster(LadderTerms(terms, quantity));
    if disaster < terms.entry * SCALE_OUT_GAIN
    then LadderLaws.LevelAt(LadderTerms(terms, quantity), terms.entry * SCALE_OUT_GAIN)
    else disaster
  }

  function LadderTerms(terms: Terms, quantity: int): LadderLaws.Terms {
    LadderLaws.Terms(terms.entry, quantity, CommissionForRoundTrip(quantity, terms.commission), terms.ladder)
  }

  lemma RatchetTakesLevel(terms: Terms, p: Open, q: Quote)
    ensures var r := DecideTickExit(TickFor(terms, p, q.at, q.bid, q.spot)).ratchet;
      var peak := MaxR(OrElse(p.peak, terms.entry), q.bid);
      var level := LadderLaws.LevelAt(LadderTerms(terms, p.quantity), peak);
      && r.peak == peak
      && r.stop == Some(if p.stop.None? then level else MaxR(p.stop.value, level))
  {
    hide RatchetProfitLock, TimeStopDue, DecideSoftExit, ShouldScaleOut, CommissionForRoundTrip;
    hide LadderLaws.LevelAt;
    LadderLaws.AdvanceTakesLevel(LadderTerms(terms, p.quantity), LadderLaws.Level(p.peak, p.stop, p.armed), q.bid);
  }

  lemma ScalesOutHigh(terms: Terms, p: Open, q: Quote)
    ensures var decision := DecideTickExit(TickFor(terms, p, q.at, q.bid, q.spot));
      && (decision.ScaleOut? ==> !p.scaledOut && q.bid >= terms.entry * SCALE_OUT_GAIN)
      && var after := AfterTick(terms, p, q.at, q.bid, q.spot);
      && (after.position.Some? && !decision.ScaleOut? ==>
          after.position.value.quantity == p.quantity && after.position.value.scaledOut == p.scaledOut)
      && (after.position.Some? && decision.ScaleOut? ==> after.position.value.scaledOut)
  {
    hide RatchetProfitLock, TimeStopDue, DecideSoftExit;
  }

  predicate Covered(terms: Terms, p: Open) {
    p.scaledOut || ScaleLevel(terms, p.quantity) >= ScaleBreakeven(terms)
  }

  lemma CoveredDoesNotRaise(terms: Terms, p: Open, q: Quote)
    requires terms.entry >= 0.0 && terms.ladder.tightGivebackPct <= terms.ladder.givebackPct && Covered(terms, p)
    ensures !RaisesStop(terms, p, q)
  {
    hide DecideTickExit, TickFor, AfterTick, LadderTerms, LadderLaws.LevelAt, ScaleBreakeven;
    RatchetTakesLevel(terms, p, q);
    ScalesOutHigh(terms, p, q);
    var peak := MaxR(OrElse(p.peak, terms.entry), q.bid);
    if q.bid >= terms.entry * SCALE_OUT_GAIN {
      LadderTermsKeep(terms, p.quantity);
      LadderLaws.LevelIsUnderPeak(LadderTerms(terms, p.quantity), peak);
      LadderLaws.LevelIsMonotone(LadderTerms(terms, p.quantity), terms.entry * SCALE_OUT_GAIN, peak);
    }
  }

  lemma LadderTermsKeep(terms: Terms, quantity: int)
    ensures LadderTerms(terms, quantity).entry == terms.entry && LadderTerms(terms, quantity).ladder == terms.ladder
  {
  }

  lemma {:induction false} CoveredNeverRaises(terms: Terms, p: Open, quotes: seq<Quote>)
    requires terms.entry >= 0.0 && terms.ladder.tightGivebackPct <= terms.ladder.givebackPct && Covered(terms, p)
    ensures NeverRaises(terms, p, quotes)
    decreases |quotes|
  {
    hide DecideTickExit, AfterTick, RaisesStop, ScaleLevel, ScaleBreakeven;
    if quotes != [] {
      var q := quotes[0];
      CoveredDoesNotRaise(terms, p, q);
      ScalesOutHigh(terms, p, q);
      var after := AfterTick(terms, p, q.at, q.bid, q.spot).position;
      if after.Some? {
        CoveredNeverRaises(terms, after.value, quotes[1..]);
      }
    }
  }

  /** A position as its entry leaves it, large enough to scale out. */
  predicate Scalable(terms: Terms, p: Open) {
    && terms.entry > 0.0 && terms.useScaleOut && p.quantity >= 2 && !p.scaledOut
    && p.stop == Some(LadderLaws.Disaster(LadderTerms(terms, p.quantity)))
    && OrElse(p.peak, terms.entry) <= terms.entry * SCALE_OUT_GAIN
  }

  /** Within the first clock, when no time stop is due. */
  predicate InFirstClock(terms: Terms, at: int) {
    at - terms.openedAt <= LimitMs(Clock(terms.useTimeStop, None, None, None, terms.timeStopSeconds))
  }

  /** There, and before the hard flatten. */
  predicate Early(terms: Terms, c: Config, rules: Rules, at: int) {
    InFirstClock(terms, at) && rules.clockLabel(at) < c.hardFlattenTime
  }

  /** The bid that scales out at the worst stop: ten percent up, or a cent over the disaster level. */
  function FirstScale(terms: Terms, quantity: int): real {
    var disaster := LadderLaws.Disaster(LadderTerms(terms, quantity));
    if disaster < terms.entry * SCALE_OUT_GAIN then terms.entry * SCALE_OUT_GAIN else disaster + 0.01
  }

  lemma FirstScaleIsWorst(terms: Terms, quantity: int)
    ensures var bid := FirstScale(terms, quantity);
      && bid >= terms.entry * SCALE_OUT_GAIN
      && LadderLaws.LevelAt(LadderTerms(terms, quantity), bid) == ScaleLevel(terms, quantity) < bid
  {
    hide LadderLaws.LevelAt, LadderLaws.Disaster, LadderTerms;
    LadderLaws.LevelIsUnderPeak(LadderTerms(terms, quantity), FirstScale(terms, quantity));
    LadderLaws.CentOverDisaster(LadderTerms(terms, quantity));
  }

  lemma UncoveredRaises(terms: Terms, p: Open, q: Quote)
    requires Scalable(terms, p) && ScaleLevel(terms, p.quantity) < ScaleBreakeven(terms)
    requires q.bid == FirstScale(terms, p.quantity) && InFirstClock(terms, q.at)
    ensures RaisesStop(terms, p, q)
  {
    hide RatchetProfitLock, LadderLaws.LevelAt, ScaleBreakeven, LadderLaws.Disaster, CommissionForRoundTrip;
    hide ScaleLevel, FirstScale;
    RatchetTakesLevel(terms, p, q);
    FirstScaleIsWorst(terms, p.quantity);
    LadderLaws.LevelIsUnderPeak(LadderTerms(terms, p.quantity), q.bid);
    LadderLaws.TickRatchets(TickFor(terms, p, q.at, q.bid, q.spot).lock);
    hide Breakeven;
  }

  /** A snapshot that shows one bid for the held contract. */
  function Showing(t: Ticket, q: Quote): Snapshot
    requires t.strike.Some? && t.strike.value >= 0.0
  {
    Snapshot(q.at, None, [Row(t.strike.value, t.right, None, Some(q.bid), None)], None, None)
  }

  lemma OneBidParts(
    terms: Terms, c: Config, rules: Rules, t: Ticket, p: Open, h: Held, at: int)
    requires SameTerms(terms, c, t) && SameHolding(p, h) && Scalable(terms, p) && Early(terms, c, rules, at)
    requires t.strike.Some? && t.strike.value >= 0.0
    requires ScaleLevel(terms, p.quantity) < ScaleBreakeven(terms)
    ensures c.profitLock.Some?
    ensures exists snaps, quotes ::
              AllShow(c, rules, t, snaps, quotes) && LiveRun(terms, p, quotes) != ReplayRun(c, rules, t, h, snaps)
  {
    hide ScaleLevel, ScaleBreakeven, SameHolding, AfterTick, LookAt, LiveTrace, ReplayTrace, LiveRun, ReplayRun;
    var q := Quote(at, FirstScale(terms, p.quantity), None);
    FirstScaleIsWorst(terms, p.quantity);
    UncoveredRaises(terms, p, q);
    hide RaisesStop, FirstScale, LadderLaws.LevelAt;
    var snaps, quotes := [Showing(t, q)], [q];
    assert quotes[0] == q && snaps[0] == Showing(t, q) && snaps[0].quotes[1..] == [];
    assert Shows(c, rules, t, snaps[0], quotes[0]);
    assert AllShow(c, rules, t, snaps, quotes);
    assert !NeverRaises(terms, p, quotes);
    ReplayMatchesLiveExactly(terms, c, rules, t, p, h, snaps, quotes);
  }

  /**
   * Of one trade, two contracts or more, replay and live agree on every run of bids exactly when the ladder's
   * level at the first bid that can scale out is at breakeven or above: a number read off the entry and the
   * settings.
   */
  lemma AlwaysMatchesExactly(
    terms: Terms, c: Config, rules: Rules, t: Ticket, p: Open, h: Held, at: int)
    requires SameTerms(terms, c, t) && SameHolding(p, h) && Scalable(terms, p) && Early(terms, c, rules, at)
    requires t.strike.Some? && t.strike.value >= 0.0
    requires terms.ladder.tightGivebackPct <= terms.ladder.givebackPct
    ensures c.profitLock.Some?
    ensures (forall snaps, quotes :: AllShow(c, rules, t, snaps, quotes) ==>
              LiveRun(terms, p, quotes) == ReplayRun(c, rules, t, h, snaps))
            <==> ScaleLevel(terms, p.quantity) >= ScaleBreakeven(terms)
  {
    LadderIsSet(terms, c, t);
    if ScaleLevel(terms, p.quantity) < ScaleBreakeven(terms) {
      OneBidParts(terms, c, rules, t, p, h, at);
    } else {
      forall snaps, quotes | AllShow(c, rules, t, snaps, quotes)
        ensures LiveRun(terms, p, quotes) == ReplayRun(c, rules, t, h, snaps)
      {
        CoveredNeverRaises(terms, p, quotes);
        ReplayMatchesLiveExactly(terms, c, rules, t, p, h, snaps, quotes);
      }
    }
    hide ScaleLevel, ScaleBreakeven, AllShow, LiveRun, ReplayRun, SameTerms, SameHolding;
  }

  // ----- Where the loops part -----

  const CHEAP: Terms := Terms(0.20, CALL, 0, DEFAULT_PROFIT_LOCK, 0.65, true, false, None)

  function TwoCheap(): Open {
    Open(2, Some(0.19), Some(0), Some(0.19), INITIAL, false, false)
  }

  lemma CheapCommission()
    ensures CommissionForRoundTrip(2, 0.65) == 2.6 && CommissionForRoundTrip(1, 0.65) == 1.3
  {
    LadderLaws.CommissionIsLinear(2, 65);
    LadderLaws.CommissionIsLinear(1, 65);
  }

  lemma CheapStop()
    ensures DisasterStopBid(0.20, 2, 2.6, DEFAULT_PROFIT_LOCK) == 0.19
  {
    assert BidForReturnPct(-12.0, 0.20, 2, 2.6) == 0.189;
    assert (0.189 * 100.0 + 0.5).Floor == 19;
  }

  /**
   * Two contracts bought at 20 cents under the default ladder: at 22 cents half is sold before the lock
   * has armed. The live loop then raises the stop of the other half to breakeven; the replay leaves it at 19 cents.
   */
  lemma TwoContractsCanPart(c: Config, rules: Rules, t: Ticket, h: Held, s: Snapshot, now: int)
    requires SameTerms(CHEAP, c, t) && SameHolding(TwoCheap(), h)
    requires Shows(c, rules, t, s, Quote(now, 0.22, None))
    ensures var after := AfterTick(CHEAP, TwoCheap(), now, 0.22, None);
      after.position.Some? && after.position.value.quantity == 1 && after.position.value.stop == Some(0.213)
    ensures var look := LookAt(c, rules, t, h, s);
      look.Stay? && look.held.quantity == 1 && look.held.stop == Some(0.19)
  {
    CheapTick(now);
    TicksMatch(CHEAP, c, rules, t, TwoCheap(), h, s, Quote(now, 0.22, None));
    hide DecideTickExit, CommissionForRoundTrip, TickFor, FirstBid;
    CheapCommission();
  }

  lemma CheapTick(now: int)
    ensures DecideTickExit(TickFor(CHEAP, TwoCheap(), now, 0.22, None))
         == ScaleOut(1, Ratchet(0.22, false, Some(0.19), INITIAL, false))
  {
    CheapCommission();
    CheapStop();
    var tick := TickFor(CHEAP, TwoCheap(), now, 0.22, None);
    hide DisasterStopBid, CommissionForRoundTrip;
    assert ReturnOnCostPct(0.22, 0.20, 2, 2.6) == 3.5;
    assert RatchetProfitLock(tick.lock) == Ratchet(0.22, false, Some(0.19), INITIAL, false);
  }
}
