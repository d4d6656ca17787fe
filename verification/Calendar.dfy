/**
 * The trainer's calendar: opening equity, day and month totals, and the grid of weeks.
 * Dates are day numbers (1970-01-01 is 0), money is whole cents.
 */
module Calendar {
  import opened Seqs

  datatype Close = Close(at: int, etDate: int, netPnl: int)

  datatype Kind = BASELINE | TOP_UP

  datatype Mark = Mark(kind: Kind, at: int, etDate: int, amount: int, balanceAfter: int)

  datatype Day = Day(date: int, outside: bool, empty: bool, pnl: Option<int>, startEquity: Option<int>, added: int)

  datatype Month = Month(pnl: Option<int>, startEquity: Option<int>, added: int, weeks: seq<seq<Day>>)

  // ----- Opening equity -----

  function CloseCounts(since: int, date: int): Close -> int {
    (c: Close) => if c.at > since && c.etDate < date then c.netPnl else 0
  }

  function MarkCounts(since: int, date: int): Mark -> int {
    (m: Mark) => if m.at > since && m.etDate < date then m.amount else 0
  }

  function Opening(date: int, baseline: Option<Mark>, closes: seq<Close>, topUps: seq<Mark>): Option<int> {
    if baseline.None? || date <= baseline.value.etDate then None
    else Some(baseline.value.balanceAfter + SumOf(closes, CloseCounts(baseline.value.at, date))
              + SumOf(topUps, MarkCounts(baseline.value.at, date)))
  }

  method StartEquity(date: int, baseline: Option<Mark>, closes: seq<Close>, topUps: seq<Mark>)
    returns (equity: Option<int>)
    ensures equity == Opening(date, baseline, closes, topUps)
  {
    if baseline.None? || date <= baseline.value.etDate {
      return None;
    }
    var b := baseline.value;
    var sum := b.balanceAfter;
    for i := 0 to |closes|
      invariant sum == b.balanceAfter + SumOf(closes[..i], CloseCounts(b.at, date))
    {
      assert closes[..i + 1] == closes[..i] + [closes[i]];
      SumOfSnoc(closes[..i], closes[i], CloseCounts(b.at, date));
      if closes[i].at > b.at && closes[i].etDate < date {
        sum := sum + closes[i].netPnl;
      }
    }
    assert closes[..|closes|] == closes;
    ghost var counted := sum;
    for i := 0 to |topUps|
      invariant sum == counted + SumOf(topUps[..i], MarkCounts(b.at, date))
    {
      assert topUps[..i + 1] == topUps[..i] + [topUps[i]];
      SumOfSnoc(topUps[..i], topUps[i], MarkCounts(b.at, date));
      if topUps[i].at > b.at && topUps[i].etDate < date {
        sum := sum + topUps[i].amount;
      }
    }
    assert topUps[..|topUps|] == topUps;
    equity := Some(sum);
  }

  // ----- The grid -----

  /** Monday is 0; day 0 was a Thursday. */
  function WeekdayMon0(date: int): (r: int)
    ensures 0 <= r < 7
  {
    (date + 3) % 7
  }

  function MondayOf(date: int): int {
    date - WeekdayMon0(date)
  }

  function Week(monday: int): seq<int> {
    [monday, monday + 1, monday + 2, monday + 3, monday + 4]
  }

  function WeeksFrom(cursor: int, last: int): seq<seq<int>>
    decreases last - cursor
  {
    if cursor > last then [] else [Week(cursor)] + WeeksFrom(cursor + 7, last)
  }

  method MonthWeeks(first: int, last: int) returns (weeks: seq<seq<int>>)
    ensures weeks == WeeksFrom(MondayOf(first), last)
  {
    weeks := [];
    var cursor := first - WeekdayMon0(first);
    while cursor <= last
      invariant weeks + WeeksFrom(cursor, last) == WeeksFrom(MondayOf(first), last)
      decreases last - cursor
    {
      assert weeks + ([Week(cursor)] + WeeksFrom(cursor + 7, last))
        == weeks + [Week(cursor)] + WeeksFrom(cursor + 7, last);
      weeks := weeks + [Week(cursor)];
      cursor := cursor + 7;
    }
  }

  function Flat<T>(weeks: seq<seq<T>>): seq<T> {
    if weeks == [] then [] else weeks[0] + Flat(weeks[1..])
  }

  predicate Increasing(days: seq<int>) {
    forall i, j :: 0 <= i < j < |days| ==> days[i] < days[j]
  }

  lemma MondaysRepeat(cursor: int, k: int)
    requires WeekdayMon0(cursor) == 0 && 0 <= k < 7
    ensures WeekdayMon0(cursor + k) == k && MondayOf(cursor + k) == cursor
    ensures WeekdayMon0(cursor + 7) == 0
  {
  }

  lemma IncreasingConcat(a: seq<int>, b: seq<int>, k: int)
    requires Increasing(a) && Increasing(b)
    requires (forall d :: d in a ==> d < k) && (forall d :: d in b ==> k <= d)
    ensures Increasing(a + b)
  {
    forall i, j | 0 <= i < j < |a + b| ensures (a + b)[i] < (a + b)[j] {
      if i < |a| {
        assert a[i] in a;
      }
      if j >= |a| {
        assert b[j - |a|] in b;
      }
    }
  }

  lemma {:induction false} WeeksTile(cursor: int, last: int)
    requires WeekdayMon0(cursor) == 0
    ensures Increasing(Flat(WeeksFrom(cursor, last)))
    ensures forall d :: d in Flat(WeeksFrom(cursor, last)) <==> WeekdayMon0(d) < 5 && cursor <= d && MondayOf(d) <= last
    decreases last - cursor
  {
    if cursor <= last {
      MondaysRepeat(cursor, 0);
      WeeksTile(cursor + 7, last);
      var rest := Flat(WeeksFrom(cursor + 7, last));
      assert Flat(WeeksFrom(cursor, last)) == Week(cursor) + rest;
      forall d ensures d in Week(cursor) <==> WeekdayMon0(d) < 5 && cursor <= d < cursor + 7 {
        if cursor <= d < cursor + 7 {
          MondaysRepeat(cursor, d - cursor);
        }
      }
      forall d | cursor <= d < cursor + 7 ensures MondayOf(d) == cursor {
        MondaysRepeat(cursor, d - cursor);
      }
      IncreasingConcat(Week(cursor), rest, cursor + 7);
    } else {
      forall d | cursor <= d ensures MondayOf(d) > last {
        MondayBound(cursor, d);
      }
    }
  }

  lemma MondayBound(cursor: int, d: int)
    requires WeekdayMon0(cursor) == 0 && cursor <= d
    ensures MondayOf(d) >= cursor
  {
  }

  /** The grid lists every Monday to Friday of the month once, in order, and nothing but the weekdays of its weeks. */
  lemma GridListsEveryWeekdayOnce(first: int, last: int)
    ensures var days := Flat(WeeksFrom(MondayOf(first), last));
      && Increasing(days)
      && (forall d :: first <= d <= last && WeekdayMon0(d) < 5 ==> d in days)
      && (forall d :: d in days ==> WeekdayMon0(d) < 5 && MondayOf(first) <= d && MondayOf(d) <= last)
  {
    assert WeekdayMon0(MondayOf(first)) == 0;
    WeeksTile(MondayOf(first), last);
  }

  // ----- Telescoping -----

  function CloseWithin(since: int, from: int, to: int): Close -> int {
    (c: Close) => if c.at > since && from <= c.etDate < to then c.netPnl else 0
  }

  function MarkWithin(since: int, from: int, to: int): Mark -> int {
    (m: Mark) => if m.at > since && from <= m.etDate < to then m.amount else 0
  }

  lemma {:induction false} ClosesSplit(closes: seq<Close>, since: int, from: int, to: int)
    requires from <= to
    ensures SumOf(closes, CloseCounts(since, to))
         == SumOf(closes, CloseCounts(since, from)) + SumOf(closes, CloseWithin(since, from, to))
  {
    if closes != [] {
      ClosesSplit(closes[1..], since, from, to);
    }
  }

  lemma {:induction false} MarksSplit(marks: seq<Mark>, since: int, from: int, to: int)
    requires from <= to
    ensures SumOf(marks, MarkCounts(since, to))
         == SumOf(marks, MarkCounts(since, from)) + SumOf(marks, MarkWithin(since, from, to))
  {
    if marks != [] {
      MarksSplit(marks[1..], since, from, to);
    }
  }

  /** Between two dates after the baseline, opening equity moves by what is dated in between. */
  lemma {:induction false} OpeningTelescopes(from: int, to: int, b: Mark, closes: seq<Close>, topUps: seq<Mark>)
    requires b.etDate < from <= to
    ensures Opening(from, Some(b), closes, topUps).Some? && Opening(to, Some(b), closes, topUps).Some?
    ensures Opening(to, Some(b), closes, topUps).value - Opening(from, Some(b), closes, topUps).value
         == SumOf(closes, CloseWithin(b.at, from, to)) + SumOf(topUps, MarkWithin(b.at, from, to))
  {
    ClosesSplit(closes, b.at, from, to);
    MarksSplit(topUps, b.at, from, to);
  }

  // ----- The month view -----

  function ClosesOn(date: int): Close -> int {
    (c: Close) => if c.etDate == date then c.netPnl else 0
  }

  function AddedOn(date: int): Mark -> int {
    (m: Mark) => if m.etDate == date then m.amount else 0
  }

  function EarliestClose(closes: seq<Close>): Option<int> {
    if closes == [] then None
    else
      var e := EarliestClose(closes[..|closes| - 1]);
      var d := closes[|closes| - 1].etDate;
      if e.None? || d < e.value then Some(d) else e
  }

  function IsTopUp(): Mark -> bool {
    (m: Mark) => m.kind == TOP_UP
  }

  function FindBaseline(marks: seq<Mark>): Option<Mark> {
    if marks == [] then None else if marks[0].kind == BASELINE then Some(marks[0]) else FindBaseline(marks[1..])
  }

  function Started(closes: seq<Close>, marks: seq<Mark>): Option<int> {
    if EarliestClose(closes).Some? then EarliestClose(closes)
    else match FindBaseline(marks) case None => None case Some(b) => Some(b.etDate)
  }

  function DayView(date: int, first: int, last: int, today: int, closes: seq<Close>, marks: seq<Mark>): Day {
    var started := Started(closes, marks);
    var outside := !(first <= date <= last);
    if started.None? || date < started.value || date > today then Day(date, outside, true, None, None, 0)
    else
      var topUps := Filter(marks, IsTopUp());
      Day(date, outside, false, Some(SumOf(closes, ClosesOn(date))), Opening(date, FindBaseline(marks), closes, topUps),
          SumOf(topUps, AddedOn(date)))
  }

  function DayViews(dates: seq<int>, first: int, last: int, today: int, closes: seq<Close>,
      marks: seq<Mark>): seq<Day> {
    seq(|dates|, i requires 0 <= i < |dates| => DayView(dates[i], first, last, today, closes, marks))
  }

  function WeekViews(weeks: seq<seq<int>>, first: int, last: int, today: int, closes: seq<Close>,
      marks: seq<Mark>): seq<seq<Day>> {
    seq(|weeks|, i requires 0 <= i < |weeks| => DayViews(weeks[i], first, last, today, closes, marks))
  }

  function OrZero(x: Option<int>): int {
    if x.Some? then x.value else 0
  }

  function Shown(): Day -> bool {
    (d: Day) => !d.outside && !d.empty
  }

  function ShownPnl(): Day -> int {
    (d: Day) => if Shown()(d) then OrZero(d.pnl) else 0
  }

  function AddedWithin(first: int, last: int): Mark -> int {
    (m: Mark) => if first <= m.etDate <= last then m.amount else 0
  }

  /** `buildTrainerMonth`; `first` and `last` are the month's own dates. */
  function TrainerMonth(first: int, last: int, today: int, closes: seq<Close>, marks: seq<Mark>): Month {
    var weeks := WeekViews(WeeksFrom(MondayOf(first), last), first, last, today, closes, marks);
    var topUps := Filter(marks, IsTopUp());
    Month(if Filter(Flat(weeks), Shown()) == [] then None else Some(SumOf(Flat(weeks), ShownPnl())),
          Opening(first, FindBaseline(marks), closes, topUps),
          SumOf(topUps, AddedWithin(first, last)), weeks)
  }

  function Weekend(first: int, last: int): Close -> int {
    (c: Close) => if first <= c.etDate <= last && WeekdayMon0(c.etDate) >= 5 then c.netPnl else 0
  }

  function OnDays(days: seq<int>, first: int, last: int): Close -> int {
    (c: Close) => if c.etDate in days && first <= c.etDate <= last then c.netPnl else 0
  }

  function PnlOfDay(closes: seq<Close>, first: int, last: int): int -> int {
    (d: int) => if first <= d <= last then SumOf(closes, ClosesOn(d)) else 0
  }

  /** Adding up day by day is adding up close by close. */
  lemma {:induction false} SumByDay(days: seq<int>, closes: seq<Close>, first: int, last: int)
    requires Increasing(days)
    ensures SumOf(days, PnlOfDay(closes, first, last)) == SumOf(closes, OnDays(days, first, last))
  {
    if days == [] {
      NoDays(closes, first, last);
    } else {
      SumByDay(days[1..], closes, first, last);
      OneDayMore(days, closes, first, last);
    }
  }

  lemma {:induction false} NoDays(closes: seq<Close>, first: int, last: int)
    ensures SumOf(closes, OnDays([], first, last)) == 0
  {
    if closes != [] {
      NoDays(closes[1..], first, last);
    }
  }

  lemma {:induction false} OneDayMore(days: seq<int>, closes: seq<Close>, first: int, last: int)
    requires days != [] && Increasing(days)
    ensures SumOf(closes, OnDays(days, first, last))
         == SumOf(closes, OnDays(days[1..], first, last)) + PnlOfDay(closes, first, last)(days[0])
  {
    if closes != [] {
      OneDayMore(days, closes[1..], first, last);
      assert days[0] !in days[1..];
      assert closes[0].etDate in days <==> closes[0].etDate == days[0] || closes[0].etDate in days[1..];
    }
  }

  lemma {:induction false} EarliestIsLeast(closes: seq<Close>)
    ensures closes != [] ==> EarliestClose(closes).Some?
    ensures forall c :: c in closes ==> EarliestClose(closes).Some? && EarliestClose(closes).value <= c.etDate
  {
    if closes != [] {
      EarliestIsLeast(closes[..|closes| - 1]);
    }
  }

  lemma {:induction false} NoneOn(closes: seq<Close>, date: int)
    requires forall c :: c in closes ==> c.etDate != date
    ensures SumOf(closes, ClosesOn(date)) == 0
  {
    if closes != [] {
      NoneOn(closes[1..], date);
    }
  }

  /** No close is on the date or before it; without any, there was no baseline by then. */
  predicate NotYetStarted(date: int, closes: seq<Close>, marks: seq<Mark>) {
    if closes != [] then forall c :: c in closes ==> date < c.etDate
    else
      var baseline := FindBaseline(marks);
      baseline.None? || date < baseline.value.etDate
  }

  lemma {:induction false} EarliestIsAClose(closes: seq<Close>)
    requires closes != []
    ensures EarliestClose(closes).Some? && exists c :: c in closes && c.etDate == EarliestClose(closes).value
  {
    var init, last := closes[..|closes| - 1], closes[|closes| - 1];
    assert last in closes;
    if init != [] {
      EarliestIsAClose(init);
      var c :| c in init && c.etDate == EarliestClose(init).value;
      assert c in closes;
    }
  }

  lemma StartedExactly(date: int, closes: seq<Close>, marks: seq<Mark>)
    ensures NotYetStarted(date, closes, marks)
       <==> Started(closes, marks).None? || date < Started(closes, marks).value
  {
    EarliestIsLeast(closes);
    if closes != [] {
      EarliestIsAClose(closes);
    }
    hide FindBaseline;
  }

  /**
   * A cell is empty exactly before the first close, or before the baseline while there is none, and after today,
   * and then shows nothing at all.
   */
  lemma EmptyCellsShowNothing(date: int, first: int, last: int, today: int, closes: seq<Close>, marks: seq<Mark>)
    ensures var view := DayView(date, first, last, today, closes, marks);
      && view.date == date && (view.outside <==> date < first || last < date)
      && (view.empty <==> NotYetStarted(date, closes, marks) || today < date)
      && (view.empty ==> view.pnl.None? && view.startEquity.None? && view.added == 0)
  {
    StartedExactly(date, closes, marks);
    hide Started, NotYetStarted, Opening, SumOf, Filter;
  }

  /** An empty cell hides no close, so each cell shows what its day closed. */
  lemma CellShowsItsDay(date: int, first: int, last: int, today: int, closes: seq<Close>, marks: seq<Mark>)
    requires forall c :: c in closes ==> c.etDate <= today
    ensures ShownPnl()(DayView(date, first, last, today, closes, marks)) == PnlOfDay(closes, first, last)(date)
  {
    hide SumOf, Opening;
    var view := DayView(date, first, last, today, closes, marks);
    assert Shown()(view) <==> first <= date <= last && !view.empty;
    EarliestIsLeast(closes);
    if view.empty {
      forall c | c in closes ensures c.etDate != date {
      }
      NoneOn(closes, date);
    }
  }

  lemma {:induction false} CellsShowTheirDays(dates: seq<int>, first: int, last: int, today: int, closes: seq<Close>,
      marks: seq<Mark>)
    requires forall c :: c in closes ==> c.etDate <= today
    ensures SumOf(DayViews(dates, first, last, today, closes, marks), ShownPnl())
         == SumOf(dates, PnlOfDay(closes, first, last))
  {
    if dates != [] {
      var views := DayViews(dates, first, last, today, closes, marks);
      CellShowsItsDay(dates[0], first, last, today, closes, marks);
      CellsShowTheirDays(dates[1..], first, last, today, closes, marks);
      assert views[1..] == DayViews(dates[1..], first, last, today, closes, marks);
      assert views[0] == DayView(dates[0], first, last, today, closes, marks);
      hide DayView, DayViews;
    }
  }

  lemma {:induction false} WeeksShowTheirDays(weeks: seq<seq<int>>, first: int, last: int, today: int,
      closes: seq<Close>, marks: seq<Mark>)
    requires forall c :: c in closes ==> c.etDate <= today
    ensures SumOf(Flat(WeekViews(weeks, first, last, today, closes, marks)), ShownPnl())
         == SumOf(Flat(weeks), PnlOfDay(closes, first, last))
  {
    if weeks != [] {
      var views := WeekViews(weeks, first, last, today, closes, marks);
      assert views[1..] == WeekViews(weeks[1..], first, last, today, closes, marks);
      assert views[0] == DayViews(weeks[0], first, last, today, closes, marks);
      hide DayViews, WeekViews, SumOf;
      WeeksShowTheirDays(weeks[1..], first, last, today, closes, marks);
      CellsShowTheirDays(weeks[0], first, last, today, closes, marks);
      SumOfConcat(weeks[0], Flat(weeks[1..]), PnlOfDay(closes, first, last));
      SumOfConcat(views[0], Flat(views[1..]), ShownPnl());
    }
  }

  lemma {:induction false} NothingShown(days: seq<Day>)
    requires Filter(days, Shown()) == []
    ensures SumOf(days, ShownPnl()) == 0
  {
    if days != [] {
      NothingShown(days[1..]);
    }
  }

  lemma {:induction false} MonthSplitsByWeekday(closes: seq<Close>, since: int, first: int, last: int, days: seq<int>)
    requires forall d :: first <= d <= last ==> (d in days <==> WeekdayMon0(d) < 5)
    requires forall c :: c in closes && c.etDate >= first ==> c.at > since
    ensures SumOf(closes, CloseWithin(since, first, last + 1))
         == SumOf(closes, OnDays(days, first, last)) + SumOf(closes, Weekend(first, last))
  {
    if closes != [] {
      MonthSplitsByWeekday(closes[1..], since, first, last, days);
    }
  }

  lemma {:induction false} MarksOfMonth(marks: seq<Mark>, since: int, first: int, last: int)
    requires forall m :: m in marks && m.etDate >= first ==> m.at > since
    ensures SumOf(marks, MarkWithin(since, first, last + 1)) == SumOf(marks, AddedWithin(first, last))
  {
    if marks != [] {
      MarksOfMonth(marks[1..], since, first, last);
    }
  }

  lemma MonthShowsItsDays(first: int, last: int, today: int, closes: seq<Close>, marks: seq<Mark>)
    requires forall c :: c in closes ==> c.etDate <= today
    ensures OrZero(TrainerMonth(first, last, today, closes, marks).pnl)
         == SumOf(Flat(WeeksFrom(MondayOf(first), last)), PnlOfDay(closes, first, last))
  {
    hide SumOf, Opening, Flat, WeeksFrom, WeekViews, Filter;
    var days := Flat(WeekViews(WeeksFrom(MondayOf(first), last), first, last, today, closes, marks));
    if Filter(days, Shown()) == [] {
      NothingShown(days);
    }
    WeeksShowTheirDays(WeeksFrom(MondayOf(first), last), first, last, today, closes, marks);
  }

  /**
   * A month after the baseline reconciles: its shown P&L and cash added carry its opening equity
   * to the next month's, exactly when its weekend closes net to nothing (the grid has no weekends).
   */
  lemma MonthReconciles(first: int, last: int, today: int, closes: seq<Close>, marks: seq<Mark>, b: Mark)
    requires FindBaseline(marks) == Some(b) && b.etDate < first <= last
    requires forall c :: c in closes ==> c.etDate <= today
    requires forall c :: c in closes && c.etDate > b.etDate ==> c.at > b.at
    requires forall m :: m in marks && m.etDate > b.etDate ==> m.at > b.at
    ensures var month := TrainerMonth(first, last, today, closes, marks);
      var next := Opening(last + 1, Some(b), closes, Filter(marks, IsTopUp()));
      && month.startEquity.Some? && next.Some?
      && next.value - month.startEquity.value == OrZero(month.pnl) + month.added + SumOf(closes, Weekend(first, last))
      && (next.value == month.startEquity.value + OrZero(month.pnl) + month.added
        <==> SumOf(closes, Weekend(first, last)) == 0)
  {
    var topUps := Filter(marks, IsTopUp());
    var weeks := WeeksFrom(MondayOf(first), last);
    FilterMembers(marks, IsTopUp());
    GridListsEveryWeekdayOnce(first, last);
    MonthShowsItsDays(first, last, today, closes, marks);
    hide WeeksFrom, Filter, SumOf, WeekViews, WeekdayMon0, Flat, Shown;
    OpeningTelescopes(first, last + 1, b, closes, topUps);
    SumByDay(Flat(weeks), closes, first, last);
    MonthSplitsByWeekday(closes, b.at, first, last, Flat(weeks));
    MarksOfMonth(topUps, b.at, first, last);
  }

  // ----- Cash added, day by day -----

  function DayAdded(): Day -> int {
    (d: Day) => if Shown()(d) then d.added else 0
  }

  function AddedOfDay(topUps: seq<Mark>, first: int, last: int): int -> int {
    (d: int) => if first <= d <= last then SumOf(topUps, AddedOn(d)) else 0
  }

  function AddedOnDays(days: seq<int>, first: int, last: int): Mark -> int {
    (m: Mark) => if m.etDate in days && first <= m.etDate <= last then m.amount else 0
  }

  /** What the grid cannot show: cash added on a weekend, or where the cells are still empty. */
  function AddedOff(started: int, today: int, first: int, last: int): Mark -> int {
    (m: Mark) =>
      if first <= m.etDate <= last && (WeekdayMon0(m.etDate) >= 5 || m.etDate < started || m.etDate > today)
      then m.amount else 0
  }

  lemma {:induction false} NoDaysAdded(topUps: seq<Mark>, first: int, last: int)
    ensures SumOf(topUps, AddedOnDays([], first, last)) == 0
  {
    if topUps != [] {
      NoDaysAdded(topUps[1..], first, last);
    }
  }

  lemma {:induction false} OneDayMoreAdded(days: seq<int>, topUps: seq<Mark>, first: int, last: int)
    requires days != [] && Increasing(days)
    ensures SumOf(topUps, AddedOnDays(days, first, last))
         == SumOf(topUps, AddedOnDays(days[1..], first, last)) + AddedOfDay(topUps, first, last)(days[0])
  {
    if topUps != [] {
      OneDayMoreAdded(days, topUps[1..], first, last);
      assert days[0] !in days[1..];
      assert topUps[0].etDate in days <==> topUps[0].etDate == days[0] || topUps[0].etDate in days[1..];
    }
  }

  lemma {:induction false} AddedByDay(days: seq<int>, topUps: seq<Mark>, first: int, last: int)
    requires Increasing(days)
    ensures SumOf(days, AddedOfDay(topUps, first, last)) == SumOf(topUps, AddedOnDays(days, first, last))
  {
    if days == [] {
      NoDaysAdded(topUps, first, last);
    } else {
      AddedByDay(days[1..], topUps, first, last);
      OneDayMoreAdded(days, topUps, first, last);
    }
  }

  /** The first and last day of a month that are not empty. */
  function ShownFrom(first: int, started: int): int {
    Max(first, started)
  }

  lemma CellShowsAdded(date: int, first: int, last: int, today: int, started: int, closes: seq<Close>,
      marks: seq<Mark>)
    requires Started(closes, marks) == Some(started)
    ensures DayAdded()(DayView(date, first, last, today, closes, marks))
         == AddedOfDay(Filter(marks, IsTopUp()), ShownFrom(first, started), Min(last, today))(date)
  {
    hide SumOf, Opening, Filter, Started;
    var view := DayView(date, first, last, today, closes, marks);
    assert Shown()(view) <==> first <= date <= last && started <= date <= today;
    assert DayAdded()(view) == if Shown()(view) then view.added else 0;
  }

  lemma {:induction false} CellsShowAdded(dates: seq<int>, first: int, last: int, today: int, started: int,
      closes: seq<Close>, marks: seq<Mark>)
    requires Started(closes, marks) == Some(started)
    ensures SumOf(DayViews(dates, first, last, today, closes, marks), DayAdded())
         == SumOf(dates, AddedOfDay(Filter(marks, IsTopUp()), ShownFrom(first, started), Min(last, today)))
  {
    if dates != [] {
      var views := DayViews(dates, first, last, today, closes, marks);
      CellShowsAdded(dates[0], first, last, today, started, closes, marks);
      CellsShowAdded(dates[1..], first, last, today, started, closes, marks);
      assert views[1..] == DayViews(dates[1..], first, last, today, closes, marks);
      assert views[0] == DayView(dates[0], first, last, today, closes, marks);
      hide DayView, DayViews, AddedOfDay, Filter, Started;
    }
  }

  lemma {:induction false} WeeksShowAdded(weeks: seq<seq<int>>, first: int, last: int, today: int, started: int,
      closes: seq<Close>, marks: seq<Mark>)
    requires Started(closes, marks) == Some(started)
    ensures SumOf(Flat(WeekViews(weeks, first, last, today, closes, marks)), DayAdded())
         == SumOf(Flat(weeks), AddedOfDay(Filter(marks, IsTopUp()), ShownFrom(first, started), Min(last, today)))
  {
    if weeks != [] {
      var views := WeekViews(weeks, first, last, today, closes, marks);
      assert views[1..] == WeekViews(weeks[1..], first, last, today, closes, marks);
      assert views[0] == DayViews(weeks[0], first, last, today, closes, marks);
      hide DayViews, WeekViews, SumOf, Started, Filter, AddedOfDay;
      WeeksShowAdded(weeks[1..], first, last, today, started, closes, marks);
      CellsShowAdded(weeks[0], first, last, today, started, closes, marks);
      SumOfConcat(weeks[0], Flat(weeks[1..]),
        AddedOfDay(Filter(marks, IsTopUp()), ShownFrom(first, started), Min(last, today)));
      SumOfConcat(views[0], Flat(views[1..]), DayAdded());
    }
  }

  lemma {:induction false} AddedSplits(topUps: seq<Mark>, started: int, today: int, first: int, last: int,
      days: seq<int>)
    requires forall d :: first <= d <= last ==> (d in days <==> WeekdayMon0(d) < 5)
    ensures SumOf(topUps, AddedWithin(first, last))
         == SumOf(topUps, AddedOnDays(days, ShownFrom(first, started), Min(last, today)))
            + SumOf(topUps, AddedOff(started, today, first, last))
  {
    if topUps != [] {
      AddedSplits(topUps[1..], started, today, first, last, days);
      var m := topUps[0];
      assert first <= m.etDate <= last ==> (m.etDate in days <==> WeekdayMon0(m.etDate) < 5);
    }
  }

  /**
   * The month's cash added is what its cells show, day by day, and what was added where no cell shows it: on a
   * weekend, before the account had started or after today.
   */
  lemma CellsShowTheMonthsCash(first: int, last: int, today: int, started: int, closes: seq<Close>,
      marks: seq<Mark>)
    requires Started(closes, marks) == Some(started)
    ensures var month := TrainerMonth(first, last, today, closes, marks);
      month.added == SumOf(Flat(month.weeks), DayAdded())
        + SumOf(Filter(marks, IsTopUp()), AddedOff(started, today, first, last))
  {
    var weeks := WeeksFrom(MondayOf(first), last);
    var topUps := Filter(marks, IsTopUp());
    GridListsEveryWeekdayOnce(first, last);
    hide WeeksFrom, Filter, SumOf, WeekViews, WeekdayMon0, Flat, Shown, Started, DayAdded, AddedOff;
    WeeksShowAdded(weeks, first, last, today, started, closes, marks);
    AddedByDay(Flat(weeks), topUps, ShownFrom(first, started), Min(last, today));
    AddedSplits(topUps, started, today, first, last, Flat(weeks));
  }

  /** A baseline on Thursday, 1 January 1970. */
  const NEW_YEAR: Mark := Mark(BASELINE, 0, 0, 0, 1_000_000)

  /** A close of $5 on Saturday, 7 February 1970. */
  function SaturdayClose(): seq<Close> {
    [Close(37 * 86_400_000, 37, 500)]
  }

  /** It moves the opening of March and is in neither the P&L of February, days 31 to 58, nor its cash added. */
  lemma SaturdayCloseIsMissing()
    ensures FindBaseline([NEW_YEAR]) == Some(NEW_YEAR) && WeekdayMon0(0) == 3 && WeekdayMon0(37) == 5
    ensures var month := TrainerMonth(31, 58, 58, SaturdayClose(), [NEW_YEAR]);
      var next := Opening(59, Some(NEW_YEAR), SaturdayClose(), []);
      && month.startEquity.Some? && next.Some?
      && next.value == month.startEquity.value + OrZero(month.pnl) + month.added + 500
  {
    assert [NEW_YEAR][1..] == [];
    assert Filter([NEW_YEAR], IsTopUp()) == [];
    MonthReconciles(31, 58, 58, SaturdayClose(), [NEW_YEAR], NEW_YEAR);
    SumOfOne(SaturdayClose()[0], Weekend(31, 58));
    hide TrainerMonth, Opening;
  }
}
