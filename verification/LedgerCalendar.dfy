/** The calendar, which sees only trade rows and capital marks, against the ledger that wrote them. */
module LedgerCalendar {
  import opened Market
  import opened Seqs
  import L = Ledger
  import opened LedgerLaws
  import opened Brakes
  import C = Calendar

  function CloseRow(t: L.Trade, day: int -> int): C.Close {
    C.Close(t.closedAt, day(t.closedAt), t.netPnl)
  }

  function MarkRow(m: L.Mark, day: int -> int): C.Mark {
    C.Mark(if m.kind == L.BASELINE then C.BASELINE else C.TOP_UP, m.at, day(m.at), m.amount, m.balanceAfter)
  }

  function CloseRows(trades: seq<L.Trade>, day: int -> int): seq<C.Close> {
    seq(|trades|, i requires 0 <= i < |trades| => CloseRow(trades[i], day))
  }

  function MarkRows(marks: seq<L.Mark>, day: int -> int): seq<C.Mark> {
    seq(|marks|, i requires 0 <= i < |marks| => MarkRow(marks[i], day))
  }

  /** Opening equity of a date, as the calendar service computes it from what the account has recorded. */
  function OpeningOf(a: L.Account, day: int -> int, date: int): Option<int> {
    C.Opening(date, C.FindBaseline(MarkRows(a.marks, day)), CloseRows(a.trades, day),
              Filter(MarkRows(a.marks, day), C.IsTopUp()))
  }

  // ----- Records are only ever added, stamped with the call's clock -----

  predicate Stamped(a: L.Account, b: L.Account, now: int) {
    && |a.trades| <= |b.trades| && b.trades[..|a.trades|] == a.trades
    && |a.marks| <= |b.marks| && b.marks[..|a.marks|] == a.marks
    && (forall i :: |a.trades| <= i < |b.trades| ==> b.trades[i].closedAt == now)
    && (forall i :: |a.marks| <= i < |b.marks| ==> b.marks[i].at == now)
  }

  lemma SellStamps(s: L.Settings, a: L.Account, now: int, quantity: nat, reason: Reason, bid: int)
    requires a.position.Some? && quantity <= a.position.value.quantity
    ensures Stamped(a, L.SellSpec(s, a, now, quantity, reason, bid), now)
    ensures L.SellSpec(s, a, now, quantity, reason, bid).marks == a.marks
    ensures L.SellSpec(s, a, now, quantity, reason, bid).baseTrades == a.baseTrades
  {
  }

  lemma StepStamps(s: L.Settings, a: L.Account, c: L.Call)
    ensures Stamped(a, L.Step(s, a, c), c.now)
    ensures !c.op.Baseline? ==> L.Step(s, a, c).baseTrades == a.baseTrades
    ensures c.op.Tick? || c.op.Flatten? || c.op.Enter? ==> L.Step(s, a, c).marks == a.marks
  {
    hide L.SellSpec;
    match c.op {
      case Tick(bid, decision) =>
        if a.position.Some? && bid > 0 {
          var p := a.position.value;
          var seen := a.(position := Some(p.(peakBid := Max(p.peakBid, bid))));
          SellStamps(s, seen, c.now, p.quantity / 2, SCALE_OUT, bid);
          SellStamps(s, seen, c.now, p.quantity, if decision.Exit? then decision.reason else SCALE_OUT, bid);
        }
      case Flatten(why) =>
        if a.position.Some? {
          var p := a.position.value;
          SellStamps(s, a, c.now, p.quantity, why, if p.peakBid > 0 then p.peakBid else p.entryPrice);
        }
      case _ =>
    }
  }

  // ----- Records before and after the baseline -----

  /** Rows written before the baseline are no later than it, rows after it no earlier. */
  ghost predicate Split(a: L.Account, now: int) {
    var b := BaselineAt(a.marks);
    && a.baseTrades <= |a.trades|
    && (forall i :: 0 <= i < |a.trades| ==> a.trades[i].closedAt <= now)
    && (forall i :: 0 <= i < |a.marks| ==> a.marks[i].at <= now)
    && (b < |a.marks| ==>
         && (forall i :: 0 <= i < a.baseTrades ==> a.trades[i].closedAt <= a.marks[b].at)
         && (forall i :: a.baseTrades <= i < |a.trades| ==> a.marks[b].at <= a.trades[i].closedAt)
         && (forall i :: 0 <= i < b ==> a.marks[i].at <= a.marks[b].at)
         && (forall i :: b < i < |a.marks| ==> a.marks[b].at <= a.marks[i].at && a.marks[i].kind == L.TOP_UP))
    && (b == |a.marks| ==> a.baseTrades == 0)
  }

  /** One more mark, stamped now, keeps the split when the baseline is already there or is that mark. */
  lemma MarkSplits(a: L.Account, m: L.Mark, b: L.Account, now: int)
    requires Split(a, now) && m.at == now && b.trades == a.trades && b.marks == a.marks + [m]
    requires m.kind == L.TOP_UP ==> b.baseTrades == a.baseTrades
    requires m.kind == L.BASELINE ==> BaselineAt(a.marks) == |a.marks| && b.baseTrades == |a.trades|
    ensures Split(b, now)
  {
    BaselineFound(a.marks);
    BaselineStays(a.marks, m);
    hide BaselineAt, L.HasBaseline;
  }

  lemma ResetOrBaselineSplits(s: L.Settings, a: L.Account, c: L.Call, now: int)
    requires Split(a, now) && now <= c.now && (c.op.Reset? || c.op.Baseline?)
    ensures Split(L.Step(s, a, c), c.now)
  {
    hide Split, BaselineAt;
    SplitLater(a, now, c.now);
    var b := L.Step(s, a, c);
    BaselineFound(a.marks);
    if |b.marks| > |a.marks| {
      MarkSplits(a, b.marks[|a.marks|], b, c.now);
    } else {
      SameRecordsSplit(a, b, c.now);
    }
  }

  lemma SameRecordsSplit(a: L.Account, b: L.Account, now: int)
    requires Split(a, now) && b.trades == a.trades && b.marks == a.marks && b.baseTrades == a.baseTrades
    ensures Split(b, now)
  {
  }

  lemma TradeSplits(s: L.Settings, a: L.Account, c: L.Call, now: int)
    requires Split(a, now) && now <= c.now && !c.op.Reset? && !c.op.Baseline?
    ensures Split(L.Step(s, a, c), c.now)
  {
    hide L.Step, BaselineAt;
    var b := L.Step(s, a, c);
    StepStamps(s, a, c);
    BaselineFound(a.marks);
    assert forall i :: 0 <= i < |a.trades| ==> b.trades[i] == b.trades[..|a.trades|][i];
  }

  lemma StepSplits(s: L.Settings, a: L.Account, c: L.Call, now: int)
    requires Split(a, now) && now <= c.now
    ensures Split(L.Step(s, a, c), c.now)
  {
    hide L.Step, Split;
    if c.op.Reset? || c.op.Baseline? {
      ResetOrBaselineSplits(s, a, c, now);
    } else {
      TradeSplits(s, a, c, now);
    }
  }

  lemma {:induction false} RunSplits(s: L.Settings, calls: seq<L.Call>, now: int)
    requires Timed(calls) && forall i :: 0 <= i < |calls| ==> calls[i].now <= now
    ensures Split(L.Run(s, calls), now)
  {
    if calls != [] {
      var init, c := calls[..|calls| - 1], calls[|calls| - 1];
      RunSplits(s, init, c.now);
      StepSplits(s, L.Run(s, init), c, c.now);
      hide L.Step;
      SplitLater(L.Run(s, calls), c.now, now);
    }
  }

  lemma SplitLater(a: L.Account, now: int, later: int)
    requires Split(a, now) && now <= later
    ensures Split(a, later)
  {
  }

  ghost predicate FromCall(at: int, calls: seq<L.Call>, n: nat) {
    exists k :: n <= k < |calls| && calls[k].now == at
  }

  /** What the account records after the first `n` calls comes from the calls after them. */
  ghost predicate Later(a: L.Account, b: L.Account, calls: seq<L.Call>, n: nat) {
    && |a.trades| <= |b.trades| && b.trades[..|a.trades|] == a.trades
    && |a.marks| <= |b.marks| && b.marks[..|a.marks|] == a.marks
    && (forall i :: |a.trades| <= i < |b.trades| ==> FromCall(b.trades[i].closedAt, calls, n))
    && (forall i :: |a.marks| <= i < |b.marks| ==> FromCall(b.marks[i].at, calls, n))
  }

  lemma {:induction false} RunAppends(s: L.Settings, calls: seq<L.Call>, n: nat)
    requires n <= |calls|
    ensures Later(L.Run(s, calls[..n]), L.Run(s, calls), calls, n)
  {
    if n == |calls| {
      assert calls[..n] == calls;
    } else {
      var init, c := calls[..|calls| - 1], calls[|calls| - 1];
      assert init[..n] == calls[..n];
      RunAppends(s, init, n);
      StepStamps(s, L.Run(s, init), c);
      assert L.Run(s, calls) == L.Step(s, L.Run(s, init), c);
      hide L.Run, L.Step;
      LaterStep(L.Run(s, calls[..n]), L.Run(s, init), L.Run(s, calls), calls, n);
    }
  }

  lemma LaterStep(a: L.Account, b: L.Account, b': L.Account, calls: seq<L.Call>, n: nat)
    requires n < |calls| && Later(a, b, calls[..|calls| - 1], n)
    requires Stamped(b, b', calls[|calls| - 1].now)
    ensures Later(a, b', calls, n)
  {
    assert b'.trades[..|a.trades|] == b'.trades[..|b.trades|][..|a.trades|];
    assert b'.marks[..|a.marks|] == b'.marks[..|b.marks|][..|a.marks|];
    forall i | |a.trades| <= i < |b'.trades| ensures FromCall(b'.trades[i].closedAt, calls, n) {
      if i < |b.trades| {
        assert b'.trades[i] == b'.trades[..|b.trades|][i];
        assert FromCall(b.trades[i].closedAt, calls[..|calls| - 1], n);
        var k :| n <= k < |calls| - 1 && calls[..|calls| - 1][k].now == b.trades[i].closedAt;
        assert calls[k].now == b'.trades[i].closedAt;
      } else {
        assert calls[|calls| - 1].now == b'.trades[i].closedAt;
      }
    }
    forall i | |a.marks| <= i < |b'.marks| ensures FromCall(b'.marks[i].at, calls, n) {
      if i < |b.marks| {
        assert b'.marks[i] == b'.marks[..|b.marks|][i];
        assert FromCall(b.marks[i].at, calls[..|calls| - 1], n);
        var k :| n <= k < |calls| - 1 && calls[..|calls| - 1][k].now == b.marks[i].at;
        assert calls[k].now == b'.marks[i].at;
      } else {
        assert calls[|calls| - 1].now == b'.marks[i].at;
      }
    }
  }

  // ----- Sums over rows -----

  function TiedNet(at: int): L.Trade -> int {
    (t: L.Trade) => if t.closedAt == at then t.netPnl else 0
  }

  function TiedAmount(at: int): L.Mark -> int {
    (m: L.Mark) => if m.at == at then m.amount else 0
  }

  /** Rows written after the baseline in its very millisecond, which the calendar does not count. */
  function Tied(a: L.Account): int
    requires a.baseTrades <= |a.trades|
  {
    var b := BaselineAt(a.marks);
    if b == |a.marks| then 0
    else SumOf(a.trades[a.baseTrades..], TiedNet(a.marks[b].at)) + SumOf(a.marks[b + 1..], TiedAmount(a.marks[b].at))
  }

  lemma {:induction false} CountAfter(trades: seq<L.Trade>, day: int -> int, at: int, date: int)
    requires forall i :: 0 <= i < |trades| ==> at <= trades[i].closedAt && day(trades[i].closedAt) < date
    ensures SumOf(CloseRows(trades, day), C.CloseCounts(at, date)) == SumOf(trades, Net()) - SumOf(trades, TiedNet(at))
  {
    if trades != [] {
      assert CloseRows(trades, day)[1..] == CloseRows(trades[1..], day);
      CountAfter(trades[1..], day, at, date);
    }
  }

  lemma {:induction false} CountNone(trades: seq<L.Trade>, day: int -> int, at: int, date: int)
    requires forall i :: 0 <= i < |trades| ==> trades[i].closedAt <= at || day(trades[i].closedAt) >= date
    ensures SumOf(CloseRows(trades, day), C.CloseCounts(at, date)) == 0
  {
    if trades != [] {
      assert CloseRows(trades, day)[1..] == CloseRows(trades[1..], day);
      CountNone(trades[1..], day, at, date);
    }
  }

  /** Trades before the baseline, between it and the boundary, and after the boundary. */
  lemma CountTrades(early: seq<L.Trade>, live: seq<L.Trade>, late: seq<L.Trade>, day: int -> int, at: int, date: int)
    requires forall i :: 0 <= i < |early| ==> early[i].closedAt <= at
    requires forall i :: 0 <= i < |live| ==> at <= live[i].closedAt && day(live[i].closedAt) < date
    requires forall i :: 0 <= i < |late| ==> day(late[i].closedAt) >= date
    ensures SumOf(CloseRows(early + live + late, day), C.CloseCounts(at, date))
         == SumOf(live, Net()) - SumOf(live, TiedNet(at))
  {
    CountNone(early, day, at, date);
    CountAfter(live, day, at, date);
    CountNone(late, day, at, date);
    assert CloseRows(early + live + late, day) == CloseRows(early, day) + CloseRows(live, day) + CloseRows(late, day);
    SumOfConcat(CloseRows(early, day) + CloseRows(live, day), CloseRows(late, day), C.CloseCounts(at, date));
    SumOfConcat(CloseRows(early, day), CloseRows(live, day), C.CloseCounts(at, date));
  }

  function TopUpRows(marks: seq<L.Mark>, day: int -> int): seq<C.Mark> {
    Filter(MarkRows(marks, day), C.IsTopUp())
  }

  lemma TopUpRowsCons(marks: seq<L.Mark>, day: int -> int)
    requires marks != []
    ensures TopUpRows(marks, day)
         == (if marks[0].kind == L.TOP_UP then [MarkRow(marks[0], day)] else []) + TopUpRows(marks[1..], day)
  {
    assert MarkRows(marks, day)[1..] == MarkRows(marks[1..], day);
  }

  lemma {:induction false} MarksAfter(marks: seq<L.Mark>, day: int -> int, at: int, date: int)
    requires forall i :: 0 <= i < |marks| ==> at <= marks[i].at && day(marks[i].at) < date && marks[i].kind == L.TOP_UP
    ensures SumOf(TopUpRows(marks, day), C.MarkCounts(at, date))
         == SumOf(marks, Amount()) - SumOf(marks, TiedAmount(at))
  {
    if marks != [] {
      TopUpRowsCons(marks, day);
      MarksAfter(marks[1..], day, at, date);
      SumOfCons(MarkRow(marks[0], day), TopUpRows(marks[1..], day), C.MarkCounts(at, date));
    }
  }

  lemma {:induction false} MarksNone(marks: seq<L.Mark>, day: int -> int, at: int, date: int)
    requires forall i :: 0 <= i < |marks| ==> marks[i].at <= at || day(marks[i].at) >= date
    ensures SumOf(TopUpRows(marks, day), C.MarkCounts(at, date)) == 0
  {
    if marks != [] {
      TopUpRowsCons(marks, day);
      MarksNone(marks[1..], day, at, date);
      assert [] + TopUpRows(marks[1..], day) == TopUpRows(marks[1..], day);
      hide TopUpRows;
      SumOfCons(MarkRow(marks[0], day), TopUpRows(marks[1..], day), C.MarkCounts(at, date));
    }
  }

  lemma CountMarks(early: seq<L.Mark>, live: seq<L.Mark>, late: seq<L.Mark>, day: int -> int, at: int, date: int)
    requires forall i :: 0 <= i < |early| ==> early[i].at <= at
    requires forall i :: 0 <= i < |live| ==> at <= live[i].at && day(live[i].at) < date && live[i].kind == L.TOP_UP
    requires forall i :: 0 <= i < |late| ==> day(late[i].at) >= date
    ensures SumOf(TopUpRows(early + live + late, day), C.MarkCounts(at, date))
         == SumOf(live, Amount()) - SumOf(live, TiedAmount(at))
  {
    MarksNone(early, day, at, date);
    MarksAfter(live, day, at, date);
    MarksNone(late, day, at, date);
    assert MarkRows(early + live + late, day) == MarkRows(early, day) + MarkRows(live, day) + MarkRows(late, day);
    FilterConcat(MarkRows(early, day) + MarkRows(live, day), MarkRows(late, day), C.IsTopUp());
    FilterConcat(MarkRows(early, day), MarkRows(live, day), C.IsTopUp());
    SumOfConcat(TopUpRows(early, day) + TopUpRows(live, day), TopUpRows(late, day), C.MarkCounts(at, date));
    SumOfConcat(TopUpRows(early, day), TopUpRows(live, day), C.MarkCounts(at, date));
  }

  lemma {:induction false} FindsBaseline(marks: seq<L.Mark>, day: int -> int)
    ensures C.FindBaseline(MarkRows(marks, day))
         == if BaselineAt(marks) == |marks| then None else Some(MarkRow(marks[BaselineAt(marks)], day))
  {
    if marks != [] && marks[0].kind != L.BASELINE {
      assert MarkRows(marks, day)[1..] == MarkRows(marks[1..], day);
      FindsBaseline(marks[1..], day);
    }
  }

  lemma {:induction false} BaselineOfPrefix(marks: seq<L.Mark>, more: seq<L.Mark>)
    ensures BaselineAt(marks) < |marks| ==> BaselineAt(marks + more) == BaselineAt(marks)
    ensures BaselineAt(marks) == |marks| ==> BaselineAt(marks + more) == |marks| + BaselineAt(more)
  {
    if marks == [] {
      assert marks + more == more;
    } else {
      assert (marks + more)[1..] == marks[1..] + more;
      BaselineOfPrefix(marks[1..], more);
    }
  }

  // ----- Agreement -----

  /** The first `n` calls are those before the date. */
  ghost predicate Boundary(calls: seq<L.Call>, n: nat, day: int -> int, date: int) {
    && n <= |calls|
    && (forall i :: 0 <= i < n ==> day(calls[i].now) < date)
    && (forall i :: n <= i < |calls| ==> day(calls[i].now) >= date)
  }

  lemma StampsBeforeDate(s: L.Settings, calls: seq<L.Call>, n: nat, day: int -> int, date: int)
    requires Boundary(calls, n, day, date)
    ensures var a := L.Run(s, calls[..n]);
      && (forall i :: 0 <= i < |a.trades| ==> day(a.trades[i].closedAt) < date)
      && (forall i :: 0 <= i < |a.marks| ==> day(a.marks[i].at) < date)
  {
    var init := calls[..n];
    RunAppends(s, init, 0);
    assert init[..0] == [];
    var a := L.Run(s, init);
    assert L.Run(s, []).trades == [] && L.Run(s, []).marks == [];
    hide L.Run;
    forall i | 0 <= i < |a.trades| ensures day(a.trades[i].closedAt) < date {
      assert FromCall(a.trades[i].closedAt, init, 0);
      var k :| 0 <= k < |init| && init[k].now == a.trades[i].closedAt;
      assert day(calls[k].now) < date;
    }
    forall i | 0 <= i < |a.marks| ensures day(a.marks[i].at) < date {
      assert FromCall(a.marks[i].at, init, 0);
      var k :| 0 <= k < |init| && init[k].now == a.marks[i].at;
      assert day(calls[k].now) < date;
    }
  }

  lemma StampsAfterDate(a: L.Account, b: L.Account, calls: seq<L.Call>, n: nat, day: int -> int, date: int)
    requires Boundary(calls, n, day, date) && Later(a, b, calls, n)
    ensures forall i :: |a.trades| <= i < |b.trades| ==> day(b.trades[i].closedAt) >= date
    ensures forall i :: |a.marks| <= i < |b.marks| ==> day(b.marks[i].at) >= date
  {
    forall i | |a.trades| <= i < |b.trades| ensures day(b.trades[i].closedAt) >= date {
      assert FromCall(b.trades[i].closedAt, calls, n);
      var k :| n <= k < |calls| && calls[k].now == b.trades[i].closedAt;
    }
    forall i | |a.marks| <= i < |b.marks| ensures day(b.marks[i].at) >= date {
      assert FromCall(b.marks[i].at, calls, n);
      var k :| n <= k < |calls| && calls[k].now == b.marks[i].at;
    }
  }

  /** The pieces of the final rows around the baseline and the boundary. */
  lemma OpeningFromPieces(a: L.Account, b: L.Account, day: int -> int, date: int, now: int)
    requires Split(a, now) && BaselineAt(a.marks) < |a.marks|
    requires |a.trades| <= |b.trades| && b.trades[..|a.trades|] == a.trades
    requires |a.marks| <= |b.marks| && b.marks[..|a.marks|] == a.marks
    requires forall i :: 0 <= i < |a.trades| ==> day(a.trades[i].closedAt) < date
    requires forall i :: 0 <= i < |a.marks| ==> day(a.marks[i].at) < date
    requires forall i :: |a.trades| <= i < |b.trades| ==> day(b.trades[i].closedAt) >= date
    requires forall i :: |a.marks| <= i < |b.marks| ==> day(b.marks[i].at) >= date
    ensures var k := BaselineAt(a.marks);
      OpeningOf(b, day, date)
      == Some(a.marks[k].balanceAfter + SumOf(a.trades[a.baseTrades..], Net())
        + SumOf(a.marks[k + 1..], Amount()) - Tied(a))
  {
    var k := BaselineAt(a.marks);
    var base := a.marks[k];
    TradesPiece(a.trades, b.trades, a.baseTrades, day, base.at, date);
    MarksPiece(a.marks, b.marks, k + 1, day, base.at, date);
    assert C.FindBaseline(MarkRows(b.marks, day)) == Some(MarkRow(base, day)) by {
      assert b.marks == a.marks + b.marks[|a.marks|..];
      BaselineOfPrefix(a.marks, b.marks[|a.marks|..]);
      FindsBaseline(b.marks, day);
    }
    assert day(base.at) < date;
    hide SumOf, Filter, C.FindBaseline, MarkRows, CloseRows, BaselineAt, Split;
  }

  lemma TradesPiece(mine: seq<L.Trade>, all: seq<L.Trade>, from: nat, day: int -> int, at: int, date: int)
    requires from <= |mine| <= |all| && all[..|mine|] == mine
    requires forall i :: 0 <= i < from ==> mine[i].closedAt <= at
    requires forall i :: from <= i < |mine| ==> at <= mine[i].closedAt && day(mine[i].closedAt) < date
    requires forall i :: |mine| <= i < |all| ==> day(all[i].closedAt) >= date
    ensures SumOf(CloseRows(all, day), C.CloseCounts(at, date))
         == SumOf(mine[from..], Net()) - SumOf(mine[from..], TiedNet(at))
  {
    hide SumOf, CloseRows;
    assert all == mine[..from] + mine[from..] + all[|mine|..];
    CountTrades(mine[..from], mine[from..], all[|mine|..], day, at, date);
  }

  lemma MarksPiece(mine: seq<L.Mark>, all: seq<L.Mark>, from: nat, day: int -> int, at: int, date: int)
    requires from <= |mine| <= |all| && all[..|mine|] == mine
    requires forall i :: 0 <= i < from ==> mine[i].at <= at
    requires forall i :: from <= i < |mine| ==> at <= mine[i].at && day(mine[i].at) < date && mine[i].kind == L.TOP_UP
    requires forall i :: |mine| <= i < |all| ==> day(all[i].at) >= date
    ensures SumOf(TopUpRows(all, day), C.MarkCounts(at, date))
         == SumOf(mine[from..], Amount()) - SumOf(mine[from..], TiedAmount(at))
  {
    hide SumOf, TopUpRows;
    assert all == mine[..from] + mine[from..] + all[|mine|..];
    CountMarks(mine[..from], mine[from..], all[|mine|..], day, at, date);
  }

  lemma NoFigureYet(a: L.Account, b: L.Account, day: int -> int, date: int)
    requires BaselineAt(a.marks) == |a.marks|
    requires |a.marks| <= |b.marks| && b.marks[..|a.marks|] == a.marks
    requires forall i :: |a.marks| <= i < |b.marks| ==> day(b.marks[i].at) >= date
    ensures OpeningOf(b, day, date) == None
  {
    hide SumOf, Filter;
    var later := b.marks[|a.marks|..];
    assert b.marks == a.marks + later;
    BaselineOfPrefix(a.marks, later);
    FindsBaseline(b.marks, day);
    var k := BaselineAt(b.marks);
    if k < |b.marks| {
      assert day(b.marks[k].at) >= date;
    }
  }

  /** Cash and tied-up cost, from the invariant, in the terms of the baseline. */
  lemma BaselineBooks(s: L.Settings, a: L.Account)
    requires Inv(s, a) && BaselineAt(a.marks) < |a.marks|
    ensures var k := BaselineAt(a.marks);
      a.baseTrades <= |a.trades|
      && a.cash + OpenCost(s, a.position)
         == a.marks[k].balanceAfter + SumOf(a.trades[a.baseTrades..], Net()) + SumOf(a.marks[k + 1..], Amount())
  {
  }

  /**
   * For any run and any date: the opening equity computed from all the rows there are in the end is
   * the ledger's cash when the date began, plus what an open position tied up, less what was
   * recorded in the baseline's own millisecond. There is a figure exactly when the baseline is earlier.
   */
  lemma OpeningIsTheLedger(s: L.Settings, calls: seq<L.Call>, n: nat, day: int -> int, date: int)
    requires Timed(calls) && Boundary(calls, n, day, date)
    ensures var a := L.Run(s, calls[..n]);
      && a.baseTrades <= |a.trades|
      && OpeningOf(L.Run(s, calls), day, date)
         == if BaselineAt(a.marks) < |a.marks| then Some(a.cash + OpenCost(s, a.position) - Tied(a)) else None
  {
    hide L.Run, OpeningOf, Tied, BaselineAt, OpenCost;
    var a, b := L.Run(s, calls[..n]), L.Run(s, calls);
    var now := if n == 0 then 0 else calls[n - 1].now;
    RunSplits(s, calls[..n], now);
    RunKeeps(s, calls[..n]);
    RunAppends(s, calls, n);
    StampsBeforeDate(s, calls, n, day, date);
    StampsAfterDate(a, b, calls, n, day, date);
    hide Inv;
    if BaselineAt(a.marks) < |a.marks| {
      OpeningFromPieces(a, b, day, date, now);
      BaselineBooks(s, a);
    } else {
      NoFigureYet(a, b, day, date);
    }
  }

  /** The calendar opens a date with the ledger's own equity exactly when what is tied up equals what was missed. */
  lemma CalendarAgreesExactly(s: L.Settings, calls: seq<L.Call>, n: nat, day: int -> int, date: int)
    requires Timed(calls) && Boundary(calls, n, day, date)
    requires BaselineAt(L.Run(s, calls[..n]).marks) < |L.Run(s, calls[..n]).marks|
    ensures var a := L.Run(s, calls[..n]);
      && a.baseTrades <= |a.trades|
      && (OpeningOf(L.Run(s, calls), day, date) == Some(a.equity) <==> OpenCost(s, a.position) == Tied(a))
  {
    OpeningIsTheLedger(s, calls, n, day, date);
    CashIsConserved(s, calls[..n]);
    hide L.Run, OpeningOf, Tied, BaselineAt, OpenCost;
  }

  /** So it agrees on every date crossed flat, if nothing after the baseline was recorded in its millisecond. */
  lemma CalendarAgreesWhenFlat(s: L.Settings, calls: seq<L.Call>, n: nat, day: int -> int, date: int)
    requires Timed(calls) && Boundary(calls, n, day, date)
    requires var a := L.Run(s, calls[..n]);
      && a.position.None? && BaselineAt(a.marks) < |a.marks|
      && (forall i :: 0 <= a.baseTrades <= i < |a.trades| ==> a.trades[i].closedAt != a.marks[BaselineAt(a.marks)].at)
      && (forall i :: BaselineAt(a.marks) < i < |a.marks| ==> a.marks[i].at != a.marks[BaselineAt(a.marks)].at)
    ensures OpeningOf(L.Run(s, calls), day, date) == Some(L.Run(s, calls[..n]).equity)
  {
    CalendarAgreesExactly(s, calls, n, day, date);
    hide L.Run, OpeningOf, BaselineAt;
    var a := L.Run(s, calls[..n]);
    var at := a.marks[BaselineAt(a.marks)].at;
    NothingTied(a.trades[a.baseTrades..], a.marks[BaselineAt(a.marks) + 1..], at);
  }

  lemma {:induction false} NothingTied(trades: seq<L.Trade>, marks: seq<L.Mark>, at: int)
    requires forall i :: 0 <= i < |trades| ==> trades[i].closedAt != at
    requires forall i :: 0 <= i < |marks| ==> marks[i].at != at
    ensures SumOf(trades, TiedNet(at)) == 0 && SumOf(marks, TiedAmount(at)) == 0
    decreases |trades| + |marks|
  {
    if trades != [] {
      NothingTied(trades[1..], marks, at);
    } else if marks != [] {
      NothingTied(trades, marks[1..], at);
    }
  }

  // ----- A reset in the baseline's millisecond is lost -----

  function DayOf(): int -> int {
    (t: int) => t / 86_400_000
  }

  function TiedCalls(): seq<L.Call> {
    [L.Call(0, L.Enter(CALL, 100, 100, 1)), L.Call(1000, L.Tick(50, L.Exit(PREMIUM_STOP))),
     L.Call(1000, L.Baseline), L.Call(1000, L.Reset)]
  }

  /** The account after a loss, a baseline reading and a reset, the last three in one millisecond. */
  function TiedAccount(): L.Account {
    StoppedOut(L.Opened(), CALL, 1000).(
      cash := 1_000_000, equity := 1_000_000, baseTrades := 1,
      marks := [L.Mark(L.BASELINE, 1000, 0, 994_870), L.Mark(L.TOP_UP, 1000, 5130, 1_000_000)])
  }

  lemma TiedAccountTies()
    ensures var b := TiedAccount();
      && |b.marks| == 2 && BaselineAt(b.marks) == 0 && Tied(b) == 5130
      && b.position.None? && b.equity == b.cash == 1_000_000
  {
    var b := TiedAccount();
    assert BaselineAt(b.marks) == 0;
    assert b.trades[1..] == [] && b.marks[1..] == [L.Mark(L.TOP_UP, 1000, 5130, 1_000_000)];
    SumOfOne(L.Mark(L.TOP_UP, 1000, 5130, 1_000_000), TiedAmount(1000));
  }

  /**
   * After a loss, a baseline and a reset in one millisecond: the ledger holds $10,000, the next day opens at
   * $9,948.70.
   */
  lemma TiedResetIsLost()
    ensures Timed(TiedCalls()) && Boundary(TiedCalls(), 4, DayOf(), 1)
    ensures L.Run(FEES, TiedCalls()).position.None? && L.Run(FEES, TiedCalls()).equity == 1_000_000
    ensures OpeningOf(L.Run(FEES, TiedCalls()), DayOf(), 1) == Some(994_870)
  {
    hide L.Run, OpeningOf, TiedAccount, Tied, BaselineAt;
    var f := TiedCalls();
    assert f[..4] == f;
    TiedRun();
    TiedAccountTies();
    OpeningIsTheLedger(FEES, f, 4, DayOf(), 1);
  }

  lemma TiedUnrolls()
    ensures L.Run(FEES, TiedCalls()) ==
      L.Step(FEES, L.Step(FEES, L.Step(FEES, L.Step(FEES, L.Opened(),
        L.Call(0, L.Enter(CALL, 100, 100, 1))), L.Call(1000, L.Tick(50, L.Exit(PREMIUM_STOP)))),
        L.Call(1000, L.Baseline)), L.Call(1000, L.Reset))
  {
    hide L.Step;
    var f := TiedCalls();
    assert f[..3] == f[..2] + [f[2]] && f[..2] == [f[0]] + [f[1]] && [] + [f[0]] == [f[0]];
    assert f == f[..3] + [f[3]];
    assert L.Run(FEES, []) == L.Opened();
    hide L.Run;
    RunSnoc(FEES, f[..3], f[3]);
    RunSnoc(FEES, f[..2], f[2]);
    RunSnoc(FEES, [f[0]], f[1]);
    RunSnoc(FEES, [], f[0]);
  }

  lemma TiedBaseline(a: L.Account)
    requires a.position.None? && a.marks == [] && |a.trades| == 1
    ensures L.Step(FEES, a, L.Call(1000, L.Baseline))
         == a.(marks := [L.Mark(L.BASELINE, 1000, 0, a.equity)], baseTrades := 1)
  {
  }

  lemma TiedReset(a: L.Account)
    requires a.position.None? && a.equity == 994_870
    ensures L.Step(FEES, a, L.Call(1000, L.Reset))
         == a.(cash := 1_000_000, equity := 1_000_000, marks := a.marks + [L.Mark(L.TOP_UP, 1000, 5130, 1_000_000)])
  {
  }

  lemma TiedRun()
    ensures L.Run(FEES, TiedCalls()) == TiedAccount()
  {
    hide L.Run, L.Step, TiedCalls, L.MayEnter;
    var a := StoppedOut(L.Opened(), CALL, 1000);
    TiedUnrolls();
    assert L.MayEnter(FEES, L.Opened(), 0, CALL) by { BothStopped(); }
    StopOut(L.Opened(), CALL, 1000);
    TiedBaseline(a);
    TiedReset(a.(marks := [L.Mark(L.BASELINE, 1000, 0, 994_870)], baseTrades := 1));
  }
}
