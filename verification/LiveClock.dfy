/** The time stop over a position's whole life: what it compares is counted from the quotes themselves. */
module LiveClock {
  import opened Ladder
  import LadderLaws
  import opened Live
  import opened LiveReplay
  import opened Market
  import opened Seqs

  /** The position after a run of quotes, while it is open. */
  function HeldAfter(terms: Terms, p: Open, quotes: seq<Quote>): Option<Open> {
    if quotes == [] then Some(p)
    else
      var before, q := HeldAfter(terms, p, quotes[..|quotes| - 1]), quotes[|quotes| - 1];
      if before.None? then None else AfterTick(terms, before.value, q.at, q.bid, q.spot).position
  }

  /** The best bid of the run, and the first moment it was shown. */
  function HighOf(start: real, quotes: seq<Quote>): real {
    if quotes == [] then start else MaxR(HighOf(start, quotes[..|quotes| - 1]), quotes[|quotes| - 1].bid)
  }

  function HighAt(start: real, at: int, quotes: seq<Quote>): int {
    if quotes == [] then at
    else
      var init, q := quotes[..|quotes| - 1], quotes[|quotes| - 1];
      if q.bid > HighOf(start, init) then q.at else HighAt(start, at, init)
  }

  /** Nothing shown before the high's moment was as good, and nothing after it is better. */
  lemma {:induction false} HighIsHighest(start: real, at: int, quotes: seq<Quote>)
    ensures HighOf(start, quotes) >= start
    ensures forall i :: 0 <= i < |quotes| ==> quotes[i].bid <= HighOf(start, quotes)
    ensures (HighOf(start, quotes) == start && HighAt(start, at, quotes) == at)
      || exists i :: 0 <= i < |quotes| && quotes[i].bid == HighOf(start, quotes) > start
           && quotes[i].at == HighAt(start, at, quotes)
           && forall j :: 0 <= j < i ==> quotes[j].bid < quotes[i].bid
  {
    if quotes != [] {
      var init, q := quotes[..|quotes| - 1], quotes[|quotes| - 1];
      HighIsHighest(start, at, init);
      assert forall i :: 0 <= i < |init| ==> quotes[i] == init[i];
      if q.bid > HighOf(start, init) {
        assert quotes[|init|] == q;
      } else if HighOf(start, init) > start {
        var i :| 0 <= i < |init| && init[i].bid == HighOf(start, init) > start
          && init[i].at == HighAt(start, at, init) && forall j :: 0 <= j < i ==> init[j].bid < init[i].bid;
        assert quotes[i] == init[i];
      }
    }
  }

  lemma TickKeepsHigh(terms: Terms, o: Open, q: Quote, high: real, at: int)
    requires o.peak == Some(high) && o.peakAt == Some(at)
    ensures var after := AfterTick(terms, o, q.at, q.bid, q.spot).position;
      after.Some? ==>
        && after.value.peak == Some(MaxR(high, q.bid))
        && after.value.peakAt == Some(if q.bid > high then q.at else at)
  {
    LadderLaws.TickRatchets(TickFor(terms, o, q.at, q.bid, q.spot).lock);
    hide RatchetProfitLock, TimeStopDue, DecideSoftExit, ShouldScaleOut;
  }

  lemma {:induction false} PeakIsTheHigh(terms: Terms, p: Open, start: real, at: int, quotes: seq<Quote>)
    requires p.peak == Some(start) && p.peakAt == Some(at) && HeldAfter(terms, p, quotes).Some?
    ensures HeldAfter(terms, p, quotes).value.peak == Some(HighOf(start, quotes))
    ensures HeldAfter(terms, p, quotes).value.peakAt == Some(HighAt(start, at, quotes))
  {
    hide AfterTick;
    if quotes != [] {
      var init, q := quotes[..|quotes| - 1], quotes[|quotes| - 1];
      PeakIsTheHigh(terms, p, start, at, init);
      TickKeepsHigh(terms, HeldAfter(terms, p, init).value, q, HighOf(start, init), HighAt(start, at, init));
    }
  }

  /** What the time stop is documented to sell, the last new high given. */
  predicate ByTheClock(terms: Terms, quantity: int, q: Quote, highAt: int)
    requires quantity >= 1
  {
    var clock := (if terms.timeStopSeconds.Some? then terms.timeStopSeconds.value else 180) * 1000;
    var held := q.at - terms.openedAt;
    var fees := CommissionForRoundTrip(quantity, terms.commission) / (100.0 * quantity as real);
    && held > clock
    && (q.bid < terms.entry + fees
        || (q.bid < terms.entry * 1.02
            && (held > 3 * clock || (held > 2 * clock && q.at - highAt > clock))))
  }

  lemma ClockDecides(terms: Terms, o: Open, q: Quote, high: real, at: int)
    requires terms.useTimeStop && o.quantity >= 1 && o.peak == Some(high) && o.peakAt == Some(at)
    ensures var sold := AfterTick(terms, o, q.at, q.bid, q.spot).sold;
      sold.Some? && sold.value.reason == TIME_STOP
      <==> ByTheClock(terms, o.quantity, q, if q.bid > high then q.at else at)
  {
    var tick := TickFor(terms, o, q.at, q.bid, q.spot);
    SoftExitsHaveTheirReasons(tick);
    DueExactly(terms, o, q, high, at);
    hide RatchetProfitLock, ByTheClock, TickFor, TimeStopDue, DecideSoftExit;
  }

  lemma SoftExitsHaveTheirReasons(t: Tick)
    ensures var r := RatchetProfitLock(t.lock);
      DecideSoftExit(t.direction, t.spot, Some(t.lock.bid), r.stop, r.source, t.levels) != Some(TIME_STOP)
  {
    hide RatchetProfitLock;
  }

  lemma DueExactly(terms: Terms, o: Open, q: Quote, high: real, at: int)
    requires terms.useTimeStop && o.quantity >= 1 && o.peak == Some(high) && o.peakAt == Some(at)
    ensures var tick := TickFor(terms, o, q.at, q.bid, q.spot);
      TimeStopDue(tick.entry, tick.lock, tick.clock)
      <==> ByTheClock(terms, o.quantity, q, if q.bid > high then q.at else at)
  {
    hide CommissionForRoundTrip;
  }

  lemma {:induction false} HeldIsSized(terms: Terms, p: Open, quotes: seq<Quote>)
    requires p.quantity >= 1 && HeldAfter(terms, p, quotes).Some?
    ensures HeldAfter(terms, p, quotes).value.quantity >= 1
  {
    if quotes != [] {
      HeldIsSized(terms, p, quotes[..|quotes| - 1]);
    }
    hide RatchetProfitLock, TimeStopDue, DecideSoftExit;
  }

  /**
   * From its entry on, and whatever it was quoted since, a position is sold by the clock exactly when it is past
   * one clock and under breakeven, or under +2% and past three clocks, or past two with its last new high more
   * than a clock ago.
   */
  lemma ClockSellsExactly(terms: Terms, quantity: nat, bid: real, quotes: seq<Quote>, q: Quote)
    requires terms.useTimeStop && quantity >= 1 && HeldAfter(terms, Entered(terms, quantity, bid), quotes).Some?
    ensures var o := HeldAfter(terms, Entered(terms, quantity, bid), quotes).value;
      var sold := AfterTick(terms, o, q.at, q.bid, q.spot).sold;
      && o.quantity >= 1
      && (sold.Some? && sold.value.reason == TIME_STOP
          <==> ByTheClock(terms, o.quantity, q, HighAt(bid, terms.openedAt, quotes + [q])))
  {
    hide AfterTick, ByTheClock;
    var p := Entered(terms, quantity, bid);
    PeakIsTheHigh(terms, p, bid, terms.openedAt, quotes);
    HeldIsSized(terms, p, quotes);
    assert (quotes + [q])[..|quotes|] == quotes;
    ClockDecides(terms, HeldAfter(terms, p, quotes).value, q, HighOf(bid, quotes),
      HighAt(bid, terms.openedAt, quotes));
  }
}
