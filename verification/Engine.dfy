/**
 * The engine's two books on one position: the ladder's (prices in dollars, stop and clocks) and the
 * ledger's (cents, cash and trade rows). Fed by the same quotes they stay in step.
 */
module Engine {
  import A = Ledger
  import LadderLaws
  import opened Ladder
  import opened Live
  import opened Market
  import opened Seqs

  /** A quote in whole cents. */
  datatype Quote = Quote(at: int, bidCents: int, spot: Option<real>)

  function Dollars(cents: int): real {
    cents as real / 100.0
  }

  function BidOf(q: Quote): real {
    Dollars(q.bidCents)
  }

  /** The ladder's decision, as the ledger is told it. */
  function Told(decision: Decision): A.Decision {
    match decision
    case Hold(_) => A.Hold
    case ScaleOut(_, _) => A.ScaleOut
    case Exit(reason, _, _) => A.Exit(reason)
  }

  function Decided(terms: Terms, o: Open, q: Quote): Decision {
    DecideTickExit(TickFor(terms, o, q.at, BidOf(q), q.spot))
  }

  /** Both books hold the same contracts and have seen the same best bid. */
  predicate InStep(p: A.Position, o: Open) {
    p.quantity == o.quantity >= 1 && o.peak == Some(Dollars(p.peakBid)) && p.scaledOut == o.scaledOut
  }

  predicate Agree(a: A.Account, o: Option<Open>) {
    a.position.Some? == o.Some? && (o.Some? ==> InStep(a.position.value, o.value))
  }

  /** The row a slice leaves. */
  predicate RowOf(t: A.Trade, sold: Slice, at: int) {
    t.quantity == sold.quantity && t.reason == sold.reason && t.closedAt == at
  }

  lemma DecisionsAreSized(tick: Tick)
    ensures DecideTickExit(tick).Exit? ==> DecideTickExit(tick).quantity == tick.quantity
    ensures DecideTickExit(tick).ScaleOut? ==>
      tick.quantity >= 2 && DecideTickExit(tick).quantity == tick.quantity / 2
  {
    hide RatchetProfitLock, TimeStopDue, DecideSoftExit;
  }

  lemma PeaksMove(terms: Terms, o: Open, p: A.Position, q: Quote)
    requires InStep(p, o)
    ensures Decided(terms, o, q).ratchet.peak == Dollars(Max(p.peakBid, q.bidCents))
  {
    LadderLaws.TickRatchets(TickFor(terms, o, q.at, BidOf(q), q.spot).lock);
    hide RatchetProfitLock, TimeStopDue, DecideSoftExit, ShouldScaleOut;
  }

  /** One quote: the books agree after it, and the ledger writes exactly the row of the slice the ladder sold. */
  lemma TickAgrees(s: A.Settings, terms: Terms, a: A.Account, o: Open, q: Quote)
    requires a.position.Some? && InStep(a.position.value, o) && q.bidCents > 0
    ensures var after := AfterTick(terms, o, q.at, BidOf(q), q.spot);
      var b := A.TickSpec(s, a, q.at, q.bidCents, Told(Decided(terms, o, q)));
      && Agree(b, after.position)
      && (after.sold.None? ==> b.trades == a.trades)
      && (after.sold.Some? ==>
          && |b.trades| == |a.trades| + 1 && b.trades[..|a.trades|] == a.trades
          && RowOf(b.trades[|a.trades|], after.sold.value, q.at))
  {
    hide DecideTickExit, A.Proceeds, A.GrossPnl, A.CommissionForRoundTrip, ScaleBreakeven, CommissionForRoundTrip;
    PeaksMove(terms, o, a.position.value, q);
    DecisionsAreSized(TickFor(terms, o, q.at, BidOf(q), q.spot));
  }

  /** Both books over a run of quotes; nothing moves once the position is closed. */
  function Run(s: A.Settings, terms: Terms, a: A.Account, o: Option<Open>, quotes: seq<Quote>)
    : (A.Account, Option<Open>)
  {
    if quotes == [] then (a, o)
    else
      var (b, p) := Run(s, terms, a, o, quotes[..|quotes| - 1]);
      var q := quotes[|quotes| - 1];
      if p.None? then (A.TickSpec(s, b, q.at, q.bidCents, A.Hold), None)
      else
        (A.TickSpec(s, b, q.at, q.bidCents, Told(Decided(terms, p.value, q))),
         AfterTick(terms, p.value, q.at, BidOf(q), q.spot).position)
  }

  /** The slices the ladder sells over the run, with their times. */
  function Slices(terms: Terms, o: Option<Open>, quotes: seq<Quote>): seq<(Slice, int)> {
    if quotes == [] then []
    else
      var before := Held(terms, o, quotes[..|quotes| - 1]);
      var q := quotes[|quotes| - 1];
      Slices(terms, o, quotes[..|quotes| - 1])
      + if before.None? then [] else SoldAt(AfterTick(terms, before.value, q.at, BidOf(q), q.spot).sold, q.at)
  }

  function SoldAt(sold: Option<Slice>, at: int): seq<(Slice, int)> {
    if sold.Some? then [(sold.value, at)] else []
  }

  /** What the ladder's book alone holds after the run. */
  function Held(terms: Terms, o: Option<Open>, quotes: seq<Quote>): Option<Open> {
    if quotes == [] then o
    else
      var before := Held(terms, o, quotes[..|quotes| - 1]);
      var q := quotes[|quotes| - 1];
      if before.None? then None else AfterTick(terms, before.value, q.at, BidOf(q), q.spot).position
  }

  predicate RowsOf(rows: seq<A.Trade>, slices: seq<(Slice, int)>) {
    |rows| == |slices| && forall i :: 0 <= i < |rows| ==> RowOf(rows[i], slices[i].0, slices[i].1)
  }

  lemma ClosedIgnoresTicks(s: A.Settings, a: A.Account, now: int, bid: int, decision: A.Decision)
    requires a.position.None?
    ensures A.TickSpec(s, a, now, bid, decision) == a
  {
  }

  /**
   * Over any run of quotes the ledger, told what the ladder decides on its own book, holds the ladder's
   * position after every tick and has written exactly one row for each slice it sold.
   */
  lemma {:induction false} BooksStayInStep(s: A.Settings, terms: Terms, a: A.Account, o: Option<Open>,
      quotes: seq<Quote>)
    requires Agree(a, o) && forall i :: 0 <= i < |quotes| ==> quotes[i].bidCents > 0
    ensures var (b, p) := Run(s, terms, a, o, quotes);
      && p == Held(terms, o, quotes) && Agree(b, p)
      && |b.trades| >= |a.trades| && b.trades[..|a.trades|] == a.trades
      && RowsOf(b.trades[|a.trades|..], Slices(terms, o, quotes))
  {
    hide AfterTick, A.TickSpec, InStep, RowOf, Decided;
    if quotes != [] {
      var init, q := quotes[..|quotes| - 1], quotes[|quotes| - 1];
      BooksStayInStep(s, terms, a, o, init);
      var (b, p) := Run(s, terms, a, o, init);
      if p.None? {
        ClosedIgnoresTicks(s, b, q.at, q.bidCents, A.Hold);
      } else {
        TickAgrees(s, terms, b, p.value, q);
        var next := A.TickSpec(s, b, q.at, q.bidCents, Told(Decided(terms, p.value, q)));
        if AfterTick(terms, p.value, q.at, BidOf(q), q.spot).sold.Some? {
          assert next.trades[|a.trades|..] == b.trades[|a.trades|..] + [next.trades[|b.trades|]];
        }
      }
    }
  }

  /** The ledger's entry went through. */
  predicate Bought(s: A.Settings, a: A.Account, now: int, direction: Direction, ask: int, bid: int, quantity: nat) {
    |A.EnterSpec(s, a, now, direction, ask, bid, quantity).entries| > |a.entries|
  }

  /** The position one entry opens on the ladder's book, at the price the ledger filled it. */
  predicate Fills(s: A.Settings, terms: Terms, ask: int) {
    terms.entry == Dollars(ask + s.slippageCents)
  }

  /**
   * The two books agree from the entry on: what the ledger bought, at the price it filled, is what the ladder
   * watches, and over any quotes after it the ledger holds the ladder's position and has written one row for
   * each slice sold.
   */
  lemma EntriesStayInStep(s: A.Settings, terms: Terms, a: A.Account, now: int, ask: int, bid: int, quantity: nat,
      quotes: seq<Quote>)
    requires Bought(s, a, now, terms.direction, ask, bid, quantity) && Fills(s, terms, ask)
    requires forall i :: 0 <= i < |quotes| ==> quotes[i].bidCents > 0
    ensures var b := A.EnterSpec(s, a, now, terms.direction, ask, bid, quantity);
      var o := Entered(terms, quantity, Dollars(bid));
      && Agree(b, Some(o)) && terms.entry == Dollars(b.position.value.entryPrice)
      && var (c, p) := Run(s, terms, b, Some(o), quotes);
      && p == Held(terms, Some(o), quotes) && Agree(c, p)
      && |c.trades| >= |a.trades| && c.trades[..|a.trades|] == a.trades
      && RowsOf(c.trades[|a.trades|..], Slices(terms, Some(o), quotes))
  {
    var b := A.EnterSpec(s, a, now, terms.direction, ask, bid, quantity);
    var o := Entered(terms, quantity, Dollars(bid));
    assert b.trades == a.trades;
    assert InStep(b.position.value, o);
    hide A.EnterSpec, Entered, InStep, Run, Held, Slices, RowsOf;
    BooksStayInStep(s, terms, b, Some(o), quotes);
  }

  /** The two commissions are one: the ladder's dollars are the ledger's cents. */
  lemma CommissionsAgree(s: A.Settings, quantity: nat)
    ensures CommissionForRoundTrip(quantity, Dollars(s.feeCents)) == Dollars(A.CommissionForRoundTrip(s, quantity))
  {
    LadderLaws.CommissionIsLinear(quantity, s.feeCents);
    assert 2 * quantity * s.feeCents == s.feeCents * quantity * 2;
  }

  /**
   * The clock over a position's life: whatever is still open past three clocks was, at that tick, up two
   * percent or more.
   */
  lemma OpenPastThreeClocksIsGoing(terms: Terms, o: Open, q: Quote)
    requires terms.useTimeStop && AfterTick(terms, o, q.at, BidOf(q), q.spot).position.Some?
    requires var limit := (if terms.timeStopSeconds.Some? then terms.timeStopSeconds.value else 180) * 1000;
      limit >= 0 && q.at - terms.openedAt > 3 * limit
    ensures BidOf(q) >= terms.entry * TIME_STOP_GOING_MULT
  {
    var t := TickFor(terms, o, q.at, BidOf(q), q.spot);
    LadderLaws.ClockBounds(terms.entry, t.lock, t.clock);
    hide RatchetProfitLock, TimeStopDue, DecideSoftExit, ShouldScaleOut, Breakeven;
  }
}
