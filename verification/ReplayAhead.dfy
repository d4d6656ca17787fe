/**
 * No look-ahead: on bars built from the chain's own spot, what a replay records up to the last spot
 * of a shortened session is what it records there when the session goes on.
 */
module ReplayAhead {
  import opened Bars
  import opened Osi
  import opened Replay
  import opened ReplayLaws
  import opened Seqs
  import opened Votes

  // ----- Rows by closing time -----

  function SoldBefore(e: int): Sale -> bool {
    (s: Sale) => s.at < e
  }

  function ClosedBefore(e: int): Trade -> bool {
    (t: Trade) => t.closedAt < e
  }

  function EarlyRows(etDateKey: string, commission: real, ps: seq<Position>, e: int): seq<Trade> {
    Filter(RecordAll(etDateKey, commission, ps), ClosedBefore(e))
  }

  lemma RecordCons(etDateKey: string, commission: real, t: Ticket, s: Sale, sales: seq<Sale>)
    ensures RecordSales(etDateKey, commission, t, [s] + sales)
         == [RecordTrade(etDateKey, commission, t, s)] + RecordSales(etDateKey, commission, t, sales)
  {
  }

  /** Early rows of a position are the rows of its early sales. */
  lemma {:induction false} EarlySales(etDateKey: string, commission: real, t: Ticket, sales: seq<Sale>, e: int)
    ensures Filter(RecordSales(etDateKey, commission, t, sales), ClosedBefore(e))
         == RecordSales(etDateKey, commission, t, Filter(sales, SoldBefore(e)))
  {
    hide RecordSales;
    if sales == [] {
      NoSales(etDateKey, commission, t);
    } else {
      var s, rest := sales[0], sales[1..];
      assert sales == [s] + rest;
      RecordCons(etDateKey, commission, t, s, rest);
      EarlySales(etDateKey, commission, t, rest, e);
      var row := RecordTrade(etDateKey, commission, t, s);
      var rows := RecordSales(etDateKey, commission, t, rest);
      assert ([row] + rows)[1..] == rows;
      RecordCons(etDateKey, commission, t, s, Filter(rest, SoldBefore(e)));
      assert [] + Filter(rows, ClosedBefore(e)) == Filter(rows, ClosedBefore(e));
      assert [] + Filter(rest, SoldBefore(e)) == Filter(rest, SoldBefore(e));
    }
  }

  lemma NoSales(etDateKey: string, commission: real, t: Ticket)
    ensures RecordSales(etDateKey, commission, t, []) == []
  {
  }

  lemma EarlyRowsCons(etDateKey: string, commission: real, p: Position, rest: seq<Position>, e: int)
    ensures EarlyRows(etDateKey, commission, [p] + rest, e)
         == RecordSales(etDateKey, commission, p.ticket, Filter(p.sales, SoldBefore(e)))
           + EarlyRows(etDateKey, commission, rest, e)
  {
    hide RecordSales, Filter;
    assert ([p] + rest)[1..] == rest;
    FilterConcat(RecordSales(etDateKey, commission, p.ticket, p.sales), RecordAll(etDateKey, commission, rest),
      ClosedBefore(e));
    EarlySales(etDateKey, commission, p.ticket, p.sales, e);
  }

  // ----- A tape and its beginning -----

  ghost predicate Begins(full: Tape, part: Tape, e: int) {
    && part.snaps != [] && part.snaps <= full.snaps && part.bars <= full.bars && part.minutes <= full.minutes
    && part.start == full.start && part.expiration == full.expiration && part.product == full.product
    && part.closeMs == full.closeMs
    && part.snaps[|part.snaps| - 1].at >= e
    && (forall j :: 0 <= j < |part.bars| ==> part.bars[j].chartTime + part.closeMs <= e)
    && LateBars(full.bars, |part.bars|, full.closeMs, e)
    && LateBars(full.minutes, |part.minutes|, MINUTE_MS, e)
  }

  predicate LateBars(bars: seq<Bar>, from: nat, closeMs: int, e: int) {
    forall j :: from <= j < |bars| ==> bars[j].chartTime + closeMs > e
  }

  lemma {:induction false} SameFirst(part: seq<Snapshot>, rest: seq<Snapshot>, at: int)
    requires FirstFrom(part, at) < |part|
    ensures FirstFrom(part + rest, at) == FirstFrom(part, at)
  {
    if part[0].at < at {
      assert (part + rest)[1..] == part[1..] + rest;
      SameFirst(part[1..], rest, at);
    }
  }

  lemma {:induction false} FoundByLast(snaps: seq<Snapshot>, at: int)
    requires snaps != [] && snaps[|snaps| - 1].at >= at
    ensures FirstFrom(snaps, at) < |snaps|
  {
    if snaps[0].at < at {
      FoundByLast(snaps[1..], at);
    }
  }

  lemma EntryIsStable(full: Tape, part: Tape, e: int, i: nat)
    requires Begins(full, part, e) && i < |part.bars|
    ensures var at := part.bars[i].chartTime + part.closeMs;
      && FirstFrom(part.snaps, at) < |part.snaps|
      && FirstFrom(full.snaps, at) == FirstFrom(part.snaps, at)
      && full.snaps[FirstFrom(part.snaps, at)] == part.snaps[FirstFrom(part.snaps, at)]
  {
    hide FirstFrom;
    var at := part.bars[i].chartTime + part.closeMs;
    FoundByLast(part.snaps, at);
    assert full.snaps == part.snaps + full.snaps[|part.snaps|..];
    SameFirst(part.snaps, full.snaps[|part.snaps|..], at);
  }

  /** The trend gate sees only minutes already closed. */
  lemma MinutesAreStable(full: Tape, part: Tape, e: int, cut: int)
    requires Begins(full, part, e) && cut <= e
    ensures Filter(full.minutes, ClosedBy(cut)) == Filter(part.minutes, ClosedBy(cut))
  {
    hide Filter;
    var rest := full.minutes[|part.minutes|..];
    assert full.minutes == part.minutes + rest;
    FilterConcat(part.minutes, rest, ClosedBy(cut));
    forall b | b in rest ensures !ClosedBy(cut)(b) {
      var j :| 0 <= j < |rest| && rest[j] == b;
      assert full.minutes[|part.minutes| + j] == b;
    }
    FilterNone(rest, ClosedBy(cut));
    assert Filter(part.minutes, ClosedBy(cut)) + [] == Filter(part.minutes, ClosedBy(cut));
  }

  lemma SignalIsStable(c: Config, rules: Rules, full: Tape, part: Tape, e: int, i: nat, lastExitAt: Option<int>)
    requires UsesSpotBars(c) && Begins(full, part, e) && i < |part.bars|
    ensures i < |full.bars|
    ensures full.bars[i] == part.bars[i]
    ensures SignalAt(c, rules, full, i, lastExitAt) == SignalAt(c, rules, part, i, lastExitAt)
  {
    hide Filter, Combined, LastBars;
    assert full.bars[..i + 1] == part.bars[..i + 1];
    MinutesAreStable(full, part, e, TrendCut(c, part, part.bars[i]));
  }

  lemma TicketIsStable(c: Config, rules: Rules, full: Tape, part: Tape, e: int, i: nat, signal: Signal, s: Snapshot)
    requires Begins(full, part, e) && i < |part.bars|
    ensures TicketFor(c, rules, full, i, signal, s) == TicketFor(c, rules, part, i, signal, s)
  {
    hide QuotesFromSnapshot, StrikeOf, Sized, StopFor, LevelsFor, LastBars, LateBars;
    assert full.bars[..i + 1] == part.bars[..i + 1];
  }

  /** Held over a longer chain a position sells the same way, or sells the same until `e` and closes after it. */
  lemma {:induction false} WatchIsStable(
    c: Config, rules: Rules, t: Ticket, h: Held, full: seq<Snapshot>, part: seq<Snapshot>, i: nat, e: int)
    requires part != [] && part <= full && InOrder(full) && i <= |part| && part[|part| - 1].at >= e
    ensures var a, b := Watch(c, rules, t, h, full, i), Watch(c, rules, t, h, part, i);
      a == b || (ExitAt(a) >= e && ExitAt(b) >= e && Filter(a, SoldBefore(e)) == Filter(b, SoldBefore(e)))
    decreases |part| - i
  {
    hide LookAt, Filter;
    if i == |part| {
      assert forall j :: i <= j < |full| ==> part[|part| - 1].at <= full[j].at;
      SalesFollow(c, rules, t, h, full, i, e);
      SalesFollow(c, rules, t, h, part, i, e);
      FilterNone(Watch(c, rules, t, h, full, i), SoldBefore(e));
      FilterNone(Watch(c, rules, t, h, part, i), SoldBefore(e));
    } else {
      var look := LookAt(c, rules, t, h, part[i]);
      if look.Stay? {
        WatchIsStable(c, rules, t, look.held, full, part, i + 1, e);
        var a, b := Watch(c, rules, t, look.held, full, i + 1), Watch(c, rules, t, look.held, part, i + 1);
        FilterConcat(AsSeq(look.sold), a, SoldBefore(e));
        FilterConcat(AsSeq(look.sold), b, SoldBefore(e));
      }
    }
  }

  // ----- The scan -----

  /** Positions of bars that close after `e` leave nothing before it. */
  lemma {:induction false} LateScan(
    c: Config, rules: Rules, tape: Tape, i: nat, lastExitAt: Option<int>, e: int, etDateKey: string)
    requires Ordered(tape) && i <= |tape.bars| && LateBars(tape.bars, i, tape.closeMs, e)
    ensures EarlyRows(etDateKey, c.commission, Scan(c, rules, tape, i, lastExitAt), e) == []
    decreases |tape.bars| - i
  {
    hide Scan, SignalAt, FirstFrom, FirstAfter, RecordSales, Filter, RecordAll, EarlyRows;
    NoEarlyRows(etDateKey, c.commission, e);
    if i == |tape.bars| {
      ScanEnds(c, rules, tape, lastExitAt);
    } else {
      ScanUnfolds(c, rules, tape, i, lastExitAt);
      var signal := SignalAt(c, rules, tape, i, lastExitAt);
      var k := FirstFrom(tape.snaps, tape.bars[i].chartTime + tape.closeMs);
      if signal.None? || (k < |tape.snaps| && OpenedAt(c, rules, tape, i, signal.value, k).None?) {
        LateScan(c, rules, tape, i + 1, lastExitAt, e, etDateKey);
      } else if k < |tape.snaps| {
        var p := OpenedAt(c, rules, tape, i, signal.value, k).value;
        var exitAt := ExitAt(p.sales);
        LateScan(c, rules, tape, FirstAfter(tape.bars, exitAt), Some(exitAt), e, etDateKey);
        OpenedIsLate(c, rules, tape, i, signal.value, k, e);
        EarlyRowsCons(etDateKey, c.commission, p, Scan(c, rules, tape, FirstAfter(tape.bars, exitAt), Some(exitAt)), e);
        NoSales(etDateKey, c.commission, p.ticket);
      }
    }
  }

  lemma NoEarlyRows(etDateKey: string, commission: real, e: int)
    ensures EarlyRows(etDateKey, commission, [], e) == []
  {
  }

  lemma OpenedIsLate(c: Config, rules: Rules, tape: Tape, i: nat, signal: Signal, k: nat, e: int)
    requires Ordered(tape) && i < |tape.bars| && k < |tape.snaps| && tape.snaps[k].at >= e
    requires OpenedAt(c, rules, tape, i, signal, k).Some?
    ensures Filter(OpenedAt(c, rules, tape, i, signal, k).value.sales, SoldBefore(e)) == []
  {
    hide Watch, TicketFor, Filter;
    var p := OpenedAt(c, rules, tape, i, signal, k).value;
    SalesFollow(c, rules, p.ticket, OnOpen(c, p.ticket), tape.snaps, k + 1, e);
    FilterNone(p.sales, SoldBefore(e));
  }

  lemma {:induction false} SameResume(part: seq<Bar>, rest: seq<Bar>, at: int)
    ensures var k := FirstAfter(part, at);
      if k < |part| then FirstAfter(part + rest, at) == k else FirstAfter(part + rest, at) >= |part|
  {
    if part != [] && part[0].chartTime <= at {
      assert (part + rest)[1..] == part[1..] + rest;
      SameResume(part[1..], rest, at);
    }
  }

  lemma ResumeIsStable(full: Tape, part: Tape, e: int, exitAt: int)
    requires Begins(full, part, e)
    ensures var k := FirstAfter(part.bars, exitAt);
      && (k < |part.bars| ==> FirstAfter(full.bars, exitAt) == k)
      && (k == |part.bars| ==> FirstAfter(full.bars, exitAt) >= |part.bars|)
  {
    hide FirstAfter;
    assert full.bars == part.bars + full.bars[|part.bars|..];
    SameResume(part.bars, full.bars[|part.bars|..], exitAt);
  }

  lemma LateExitEndsPart(part: Tape, full: Tape, e: int, exitAt: int)
    requires Begins(full, part, e) && part.closeMs >= 0 && exitAt >= e
    ensures FirstAfter(part.bars, exitAt) == |part.bars|
  {
    forall j | 0 <= j < |part.bars| ensures part.bars[j].chartTime <= exitAt {
    }
  }

  lemma LaterBarsAreLate(bars: seq<Bar>, from: nat, to: nat, closeMs: int, e: int)
    requires LateBars(bars, from, closeMs, e) && from <= to
    ensures LateBars(bars, to, closeMs, e)
  {
  }

  /** After a position, both scans resume alike, or one has ended and the other leaves nothing before `e`. */
  lemma RestIsStable(c: Config, rules: Rules, full: Tape, part: Tape, e: int, i: nat, atFull: int, atPart: int,
      etDateKey: string)
    requires UsesSpotBars(c) && Begins(full, part, e) && Ordered(full) && Ordered(part) && i < |part.bars|
    requires atFull == atPart || (atFull >= e && atPart >= e)
    requires FirstAfter(part.bars, atPart) > i
    ensures EarlyRows(etDateKey, c.commission, Scan(c, rules, full, FirstAfter(full.bars, atFull), Some(atFull)), e)
         == EarlyRows(etDateKey, c.commission, Scan(c, rules, part, FirstAfter(part.bars, atPart), Some(atPart)), e)
    decreases |part.bars| - i, 0
  {
    hide Scan, FirstAfter, EarlyRows, LateBars, Ordered;
    ResumeIsStable(full, part, e, atFull);
    ResumeIsStable(full, part, e, atPart);
    var k, r := FirstAfter(part.bars, atPart), FirstAfter(full.bars, atFull);
    if atFull >= e && atPart >= e {
      EndsTogether(full, part, e, atFull, atPart);
    }
    if k == |part.bars| {
      LaterBarsAreLate(full.bars, |part.bars|, r, full.closeMs, e);
      LateScan(c, rules, full, r, Some(atFull), e, etDateKey);
      ScanEnds(c, rules, part, Some(atPart));
      NoEarlyRows(etDateKey, c.commission, e);
    } else {
      ScanNeverLooksAhead(c, rules, full, part, e, k, Some(atPart), etDateKey);
    }
  }

  lemma EndsTogether(full: Tape, part: Tape, e: int, atFull: int, atPart: int)
    requires Begins(full, part, e) && Ordered(part) && atFull >= e && atPart >= e
    ensures FirstAfter(part.bars, atPart) == |part.bars| && FirstAfter(full.bars, atFull) >= |part.bars|
  {
    hide FirstAfter;
    LateExitEndsPart(part, full, e, atFull);
    LateExitEndsPart(part, full, e, atPart);
    ResumeIsStable(full, part, e, atFull);
  }

  lemma OpenedIsStable(c: Config, rules: Rules, full: Tape, part: Tape, e: int, i: nat, signal: Signal, k: nat)
    requires Begins(full, part, e) && Ordered(full) && Ordered(part) && i < |part.bars| && k < |part.snaps|
    ensures var a, b := OpenedAt(c, rules, full, i, signal, k), OpenedAt(c, rules, part, i, signal, k);
      && a.Some? == b.Some?
      && (a.Some? ==>
          && a.value.ticket == b.value.ticket && a.value.sales != [] && b.value.sales != []
          && Filter(a.value.sales, SoldBefore(e)) == Filter(b.value.sales, SoldBefore(e))
          && (ExitAt(a.value.sales) == ExitAt(b.value.sales)
            || (ExitAt(a.value.sales) >= e && ExitAt(b.value.sales) >= e)))
  {
    hide TicketFor, Watch, Filter, LateBars;
    TicketIsStable(c, rules, full, part, e, i, signal, part.snaps[k]);
    var t := TicketFor(c, rules, part, i, signal, part.snaps[k]);
    if t.Some? {
      WatchIsStable(c, rules, t.value, OnOpen(c, t.value), full.snaps, part.snaps, k + 1, e);
    }
  }

  lemma {:induction false} ScanNeverLooksAhead(
    c: Config, rules: Rules, full: Tape, part: Tape, e: int, i: nat, lastExitAt: Option<int>, etDateKey: string)
    requires UsesSpotBars(c) && Begins(full, part, e) && Ordered(full) && Ordered(part) && i <= |part.bars|
    ensures EarlyRows(etDateKey, c.commission, Scan(c, rules, full, i, lastExitAt), e)
         == EarlyRows(etDateKey, c.commission, Scan(c, rules, part, i, lastExitAt), e)
    decreases |part.bars| - i, 1
  {
    hide Scan, SignalAt, OpenedAt, FirstFrom, FirstAfter, RecordSales, Filter, EarlyRows, LateBars, Ordered;
    if i == |part.bars| {
      LateScan(c, rules, full, i, lastExitAt, e, etDateKey);
      ScanEnds(c, rules, part, lastExitAt);
      NoEarlyRows(etDateKey, c.commission, e);
    } else {
      SignalIsStable(c, rules, full, part, e, i, lastExitAt);
      EntryIsStable(full, part, e, i);
      ScanUnfolds(c, rules, full, i, lastExitAt);
      ScanUnfolds(c, rules, part, i, lastExitAt);
      var signal := SignalAt(c, rules, part, i, lastExitAt);
      var k := FirstFrom(part.snaps, part.bars[i].chartTime + part.closeMs);
      if signal.None? {
        ScanNeverLooksAhead(c, rules, full, part, e, i + 1, lastExitAt, etDateKey);
      } else {
        OpenedIsStable(c, rules, full, part, e, i, signal.value, k);
        var a, b := OpenedAt(c, rules, full, i, signal.value, k), OpenedAt(c, rules, part, i, signal.value, k);
        if b.None? {
          ScanNeverLooksAhead(c, rules, full, part, e, i + 1, lastExitAt, etDateKey);
        } else {
          var atFull, atPart := ExitAt(a.value.sales), ExitAt(b.value.sales);
          RestIsStable(c, rules, full, part, e, i, atFull, atPart, etDateKey);
          EarlyRowsCons(etDateKey, c.commission, a.value,
            Scan(c, rules, full, FirstAfter(full.bars, atFull), Some(atFull)), e);
          EarlyRowsCons(etDateKey, c.commission, b.value,
            Scan(c, rules, part, FirstAfter(part.bars, atPart), Some(atPart)), e);
        }
      }
    }
  }

  // ----- A shortened session -----

  function Taken(cut: int): Snapshot -> bool {
    (s: Snapshot) => s.at <= cut
  }

  lemma {:induction false} TagAllCut(snaps: seq<Snapshot>, cut: int)
    ensures TagAll(Filter(snaps, Taken(cut))) == Filter(TagAll(snaps), Taken(cut))
  {
    hide TagOf;
    if snaps != [] {
      TagAllCut(snaps[1..], cut);
      var tagged := snaps[0].(underlying := TagOf(snaps[0]));
      assert TagAll(snaps) == [tagged] + TagAll(snaps[1..]);
      assert TagAll(snaps)[1..] == TagAll(snaps[1..]);
      var rest := Filter(snaps[1..], Taken(cut));
      if snaps[0].at <= cut {
        assert ([snaps[0]] + rest)[1..] == rest;
      } else {
        assert [] + rest == rest;
      }
    }
  }

  lemma CutsCommute(snaps: seq<Snapshot>, p: Snapshot -> bool, q: Snapshot -> bool)
    ensures Filter(Filter(snaps, p), q) == Filter(Filter(snaps, q), p)
  {
    hide Filter;
    var both := (s: Snapshot) => p(s) && q(s);
    FilterTwice(snaps, p, q, both);
    FilterTwice(snaps, q, p, both);
  }

  lemma {:induction false} CutIsPrefix(snaps: seq<Snapshot>, cut: int)
    requires InOrder(snaps)
    ensures Filter(snaps, Taken(cut)) <= snaps
  {
    if snaps != [] {
      var init, x := snaps[..|snaps| - 1], snaps[|snaps| - 1];
      assert snaps == init + [x];
      if x.at <= cut {
        forall s | s in snaps ensures Taken(cut)(s) {
          var j :| 0 <= j < |snaps| && snaps[j] == s;
        }
        FilterAll(snaps, Taken(cut));
      } else {
        CutIsPrefix(init, cut);
        FilterSnoc(init, x, Taken(cut));
      }
    }
  }

  /** Cutting a session short cuts the chain short. */
  lemma ChainBegins(full: Session, part: Session, c: Config, cut: int)
    requires part.snapshots == Filter(full.snapshots, Taken(cut))
    ensures ChainSnapshots(part, c) <= ChainSnapshots(full, c)
  {
    hide Filter, Sort, TagAll, SnapshotMatches;
    TagAllCut(full.snapshots, cut);
    var tagged := TagAll(full.snapshots);
    FilterSort(tagged, NotAfter(), Taken(cut));
    if Wanted(c).Some? {
      CutsCommute(Sort(tagged, NotAfter()), Taken(cut), Matching(Wanted(c).value));
    }
    ChainIsInOrder(full, c);
    CutIsPrefix(ChainSnapshots(full, c), cut);
  }

  // ----- Spots and bars of the shortened chain -----

  lemma {:induction false} SpotsConcat(a: seq<Snapshot>, b: seq<Snapshot>)
    ensures Spots(a + b) == Spots(a) + Spots(b)
  {
    if b == [] {
      assert a + b == a;
    } else {
      var s := a + b;
      assert s[..|s| - 1] == a + b[..|b| - 1];
      SpotsConcat(a, b[..|b| - 1]);
    }
  }

  lemma {:induction false} SpotsAreInTime(snaps: seq<Snapshot>)
    requires InOrder(snaps)
    ensures InTime(Spots(snaps))
    ensures snaps != [] ==> forall p :: p in Spots(snaps) ==> p.at <= snaps[|snaps| - 1].at
  {
    if snaps != [] {
      var init := snaps[..|snaps| - 1];
      SpotsAreInTime(init);
      var before := Spots(init);
      forall i | 0 <= i < |before| ensures before[i].at <= snaps[|snaps| - 1].at {
        assert before[i] in before;
      }
    }
  }

  /** More prints leave the closed bars alone, and the forming bar where it was. */
  lemma {:induction false} FormingStays(prints: seq<Print>, more: seq<Print>, w: int)
    requires w > 0 && prints != []
    ensures var f, g := FoldPrints(prints, w), FoldPrints(prints + more, w);
      && f.closed <= g.closed && g.current.Some? && |AllBars(g)| > |f.closed|
      && AllBars(g)[|f.closed|].chartTime == Bucket(prints[|prints| - 1].at, w)
  {
    hide Bucket;
    if more == [] {
      assert prints + more == prints;
    } else {
      var init, p := more[..|more| - 1], more[|more| - 1];
      FormingStays(prints, init, w);
      assert prints + more == (prints + init) + [p];
      FoldSnoc(prints + init, p, w);
    }
  }

  lemma ClosedHaveClosed(prints: seq<Print>, w: int, b: Bar)
    requires w > 0 && prints != [] && InTime(prints) && b in FoldPrints(prints, w).closed
    ensures b.chartTime + w <= prints[|prints| - 1].at
  {
    hide FoldPrints, Bucket, BarOf, HasBar, Filter, SumOf;
    FoldGroupsByBucket(prints, w);
    var f := FoldPrints(prints, w);
    var at := prints[|prints| - 1].at;
    var k :| 0 <= k < |f.closed| && f.closed[k] == b;
    assert AllBars(f)[k] == b && AllBars(f)[|f.closed|] == f.current.value;
    assert b in AllBars(f);
    BucketFacts(at, at, w);
    BucketFacts(b.chartTime, at, w);
  }

  lemma FoldBegins(prints: seq<Print>, more: seq<Print>, w: int)
    requires w > 0 && prints != [] && InTime(prints + more)
    ensures var f, g, e := FoldPrints(prints, w), FoldPrints(prints + more, w), prints[|prints| - 1].at;
      && Rising(g.closed) && f.closed <= g.closed
      && (forall b :: b in f.closed ==> b.chartTime + w <= e)
      && (forall b :: b in g.closed[|f.closed|..] ==> b.chartTime + w > e)
  {
    hide FoldPrints, Bucket, Filter, BarOf, HasBar, Groups, SumOf;
    var all := prints + more;
    assert all[..|prints|] == prints;
    assert InTime(prints) by {
      assert forall i :: 0 <= i < |prints| ==> all[i] == prints[i];
    }
    FormingStays(prints, more, w);
    FoldGroupsByBucket(all, w);
    var f, g, e := FoldPrints(prints, w), FoldPrints(all, w), prints[|prints| - 1].at;
    forall b | b in f.closed ensures b.chartTime + w <= e {
      ClosedHaveClosed(prints, w, b);
    }
    assert AllBars(g)[..|g.closed|] == g.closed;
    BucketFacts(e, e, w);
    var late := g.closed[|f.closed|..];
    forall b | b in late ensures b.chartTime + w > e {
      var k :| 0 <= k < |late| && late[k] == b;
      assert AllBars(g)[|f.closed| + k] == b;
    }
  }

  lemma HoursOfRising(bars: seq<Bar>, rules: Rules)
    requires Rising(bars)
    ensures InHours(bars, rules) == Filter(bars, RegularHours(rules))
  {
    hide Filter, Sort;
    FilterSorted(bars, Earlier(), RegularHours(rules));
    SortSortedIsIdentity(Filter(bars, RegularHours(rules)), Earlier());
  }

  lemma HoursBegin(part: seq<Bar>, rest: seq<Bar>, rules: Rules, w: int, e: int)
    requires Rising(part + rest)
    requires forall b :: b in part ==> b.chartTime + w <= e
    requires forall b :: b in rest ==> b.chartTime + w > e
    ensures var p, f := InHours(part, rules), InHours(part + rest, rules);
      && p <= f && LateBars(f, |p|, w, e)
      && (forall j :: 0 <= j < |p| ==> p[j].chartTime + w <= e)
  {
    hide Filter, InHours;
    assert Rising(part) by {
      assert forall i :: 0 <= i < |part| ==> (part + rest)[i] == part[i];
    }
    HoursOfRising(part, rules);
    HoursOfRising(part + rest, rules);
    FilterConcat(part, rest, RegularHours(rules));
    FilterMembers(part, RegularHours(rules));
    FilterMembers(rest, RegularHours(rules));
    var p, r := Filter(part, RegularHours(rules)), Filter(rest, RegularHours(rules));
    forall j | 0 <= j < |p| ensures p[j].chartTime + w <= e {
      assert p[j] in p;
    }
    forall j | |p| <= j < |p + r| ensures (p + r)[j].chartTime + w > e {
      assert (p + r)[j] == r[j - |p|] && r[j - |p|] in r;
    }
  }

  function LastSpotAt(snaps: seq<Snapshot>): int
    requires Spots(snaps) != []
  {
    Spots(snaps)[|Spots(snaps)| - 1].at
  }

  lemma BarsBegin(full: seq<Snapshot>, part: seq<Snapshot>, rules: Rules, w: int)
    requires w > 0 && InOrder(full) && part <= full && Spots(part) != []
    ensures var p, f, e := InHours(SpotBars(part, w), rules), InHours(SpotBars(full, w), rules), LastSpotAt(part);
      && p <= f && LateBars(f, |p|, w, e)
      && (forall j :: 0 <= j < |p| ==> p[j].chartTime + w <= e)
  {
    hide Spots, FoldPrints, InHours, LateBars;
    var rest := full[|part|..];
    assert full == part + rest;
    SpotsConcat(part, rest);
    SpotsAreInTime(full);
    FoldBegins(Spots(part), Spots(rest), w);
    var f, g := SpotBars(part, w), SpotBars(full, w);
    assert g == f + g[|f|..];
    HoursBegin(f, g[|f|..], rules, w, LastSpotAt(part));
  }

  // ----- The theorem -----

  lemma {:induction false} TagAllTags(snaps: seq<Snapshot>)
    ensures forall s :: s in TagAll(snaps) ==> (s.underlying.None? ==> InferUnderlying(s.spot).None?)
  {
    if snaps != [] {
      TagAllTags(snaps[1..]);
    }
  }

  /** On the spot-bar path every snapshot kept names its product, so the first one decides. */
  lemma ProductIsFirst(session: Session, c: Config)
    requires UsesSpotBars(c)
    ensures var chain := ChainSnapshots(session, c);
      chain != [] ==> FirstProduct(chain) == chain[0].underlying
  {
    hide Sort, Filter, TagAll;
    var tagged := TagAll(session.snapshots);
    var chain := ChainSnapshots(session, c);
    if chain != [] {
      TagAllTags(session.snapshots);
      SortIsSorted(tagged, NotAfter());
      FilterMembers(Sort(tagged, NotAfter()), Matching(Wanted(c).value));
      assert chain[0] in chain;
      assert chain[0] in multiset(Sort(tagged, NotAfter()));
      assert chain[0] in tagged;
    }
  }

  /** The two sessions the theorem compares: the same day, one cut short at a time, with a spot left. */
  ghost predicate Shortened(full: Session, part: Session, c: Config, cut: int) {
    && part.etDateKey == full.etDateKey
    && part.snapshots == Filter(full.snapshots, Taken(cut))
    && Spots(ChainSnapshots(part, c)) != []
  }

  lemma TapesBegin(full: Session, part: Session, c: Config, rules: Rules, cut: int)
    requires ValidConfig(c) && UsesSpotBars(c) && Shortened(full, part, c, cut)
    ensures var f, p, e := TapeOf(full, c, rules), TapeOf(part, c, rules), LastSpotAt(ChainSnapshots(part, c));
      && (p.Some? ==> f.Some? && (p.value.expiration == f.value.expiration ==> Begins(f.value, p.value, e)))
      && (p.None? && f.Some? ==> LateBars(f.value.bars, 0, f.value.closeMs, e))
  {
    hide ChainSnapshots, Spots, InHours, SpotBars, LateBars, ExpirationOf, FirstProduct, Filter;
    var a, b := ChainSnapshots(full, c), ChainSnapshots(part, c);
    ChainBegins(full, part, c, cut);
    ChainIsInOrder(full, c);
    SpotsNeedSnapshots(b);
    LastSpotIsRecent(b);
    BarsBegin(a, b, rules, BarMs(c));
    BarsBegin(a, b, rules, MINUTE_MS);
    ProductIsFirst(full, c);
    ProductIsFirst(part, c);
  }

  lemma SpotsNeedSnapshots(snaps: seq<Snapshot>)
    requires Spots(snaps) != []
    ensures snaps != []
  {
  }

  lemma LastSpotIsRecent(snaps: seq<Snapshot>)
    requires Spots(snaps) != []
    ensures snaps != [] && (InOrder(snaps) ==> LastSpotAt(snaps) <= snaps[|snaps| - 1].at)
  {
    if InOrder(snaps) {
      SpotsAreInTime(snaps);
      assert Spots(snaps)[|Spots(snaps)| - 1] in Spots(snaps);
    }
  }

  /** What a replay records before the last spot of a shortened session. */
  function EarlyTrades(session: Session, part: Session, c: Config, rules: Rules): seq<Trade>
    requires ValidConfig(c) && Spots(ChainSnapshots(part, c)) != []
  {
    Filter(Replayed(session, c, rules), ClosedBefore(LastSpotAt(ChainSnapshots(part, c))))
  }

  /**
   * Every trade a replay closes before the last spot of a shortened session is recorded, identically
   * and in order, by replaying the shortened session, if both name their contracts by one expiration.
   */
  lemma NoLookAhead(full: Session, part: Session, c: Config, rules: Rules, cut: int)
    requires ValidConfig(c) && UsesSpotBars(c) && Shortened(full, part, c, cut)
    requires ExpirationOf(part, c, rules) == ExpirationOf(full, c, rules)
    ensures EarlyTrades(full, part, c, rules) == EarlyTrades(part, part, c, rules)
  {
    hide TapeOf, Replayed, ChainSnapshots, Spots, Scan, RecordAll, Filter, Begins, LateBars, Ordered, ExpirationOf;
    var e := LastSpotAt(ChainSnapshots(part, c));
    TapesBegin(full, part, c, rules, cut);
    TapeNamesExpiration(full, c, rules);
    TapeNamesExpiration(part, c, rules);
    ReplayedUnfolds(full, c, rules);
    ReplayedUnfolds(part, c, rules);
    var f, p := TapeOf(full, c, rules), TapeOf(part, c, rules);
    if p.Some? {
      ScanNeverLooksAhead(c, rules, f.value, p.value, e, 0, None, full.etDateKey);
    } else if f.Some? {
      LateScan(c, rules, f.value, 0, None, e, full.etDateKey);
      NothingIsEarly(e);
    }
  }

  lemma TapeNamesExpiration(session: Session, c: Config, rules: Rules)
    requires ValidConfig(c)
    ensures TapeOf(session, c, rules).Some? ==>
      TapeOf(session, c, rules).value.expiration == ExpirationOf(session, c, rules)
  {
    hide ChainSnapshots, SpotBars, InHours, ExpirationOf, FirstProduct;
  }

  // ----- The one thing a replay knows early -----

  predicate Names(symbol: string, expiration: string) {
    |symbol| >= 12 && symbol[6..12] == expiration
  }

  lemma OpenedNames(c: Config, rules: Rules, tape: Tape, i: nat, signal: Signal, k: nat)
    requires Ordered(tape) && i < |tape.bars| && k < |tape.snaps|
    requires PicksFromChain(rules) && |tape.expiration| == 6
    ensures var p := OpenedAt(c, rules, tape, i, signal, k);
      p.Some? ==> Names(p.value.ticket.symbol, tape.expiration)
  {
    hide Watch, SymbolFor, QuotesFromSnapshot, StrikeOf, Sized, StopFor, LevelsFor, LastBars, Ordered;
    var s := tape.snaps[k];
    var root := if tape.product.Some? then tape.product else s.underlying;
    var picked := rules.select(QuotesFromSnapshot(s.quotes, tape.expiration, root), signal.direction);
    if picked.Some? {
      QuoteHasRow(s.quotes, tape.expiration, root, picked.value);
      var r :| r in s.quotes && picked.value.symbol == SymbolFor(OsiRoot(root), tape.expiration, r.right, r.strike);
      SymbolParts(OsiRoot(root), tape.expiration, r.right, r.strike);
    }
  }

  lemma {:induction false} ScanNames(c: Config, rules: Rules, tape: Tape, i: nat, lastExitAt: Option<int>)
    requires Ordered(tape) && i <= |tape.bars| && PicksFromChain(rules) && |tape.expiration| == 6
    ensures var ps := Scan(c, rules, tape, i, lastExitAt);
      forall k :: 0 <= k < |ps| ==> Names(ps[k].ticket.symbol, tape.expiration)
    decreases |tape.bars| - i
  {
    hide Scan, SignalAt, OpenedAt, FirstFrom, FirstAfter, Ordered, PicksFromChain;
    if i == |tape.bars| {
      ScanEnds(c, rules, tape, lastExitAt);
    } else {
      ScanUnfolds(c, rules, tape, i, lastExitAt);
      var signal := SignalAt(c, rules, tape, i, lastExitAt);
      var e := FirstFrom(tape.snaps, tape.bars[i].chartTime + tape.closeMs);
      if signal.None? {
        ScanNames(c, rules, tape, i + 1, lastExitAt);
      } else if e < |tape.snaps| {
        OpenedNames(c, rules, tape, i, signal.value, e);
        var p := OpenedAt(c, rules, tape, i, signal.value, e);
        if p.None? {
          ScanNames(c, rules, tape, i + 1, lastExitAt);
        } else {
          var exitAt := ExitAt(p.value.sales);
          ScanNames(c, rules, tape, FirstAfter(tape.bars, exitAt), Some(exitAt));
        }
      }
    }
  }

  lemma {:induction false} RowsName(etDateKey: string, commission: real, ps: seq<Position>, expiration: string)
    requires forall k :: 0 <= k < |ps| ==> Names(ps[k].ticket.symbol, expiration)
    ensures forall t :: t in RecordAll(etDateKey, commission, ps) ==> Names(t.symbol, expiration)
  {
    hide Names;
    if ps != [] {
      RowsName(etDateKey, commission, ps[1..], expiration);
    }
  }

  lemma ReplayNames(session: Session, c: Config, rules: Rules)
    requires ValidConfig(c) && PicksFromChain(rules) && |ExpirationOf(session, c, rules)| == 6
    ensures forall t :: t in Replayed(session, c, rules) ==> Names(t.symbol, ExpirationOf(session, c, rules))
  {
    hide TapeOf, Replayed, Scan, RecordAll, Ordered, ExpirationOf, Names, PicksFromChain;
    ReplayedUnfolds(session, c, rules);
    TapeNamesExpiration(session, c, rules);
    var tape := TapeOf(session, c, rules);
    if tape.Some? {
      ScanNames(c, rules, tape.value, 0, None);
      RowsName(session.etDateKey, c.commission, Scan(c, rules, tape.value, 0, None), ExpirationOf(session, c, rules));
    }
  }

  /**
   * Exactly what a replay knows early. When contracts are picked from the chain and either replay records an
   * early trade, the two record the same ones if and only if they name contracts by one expiration.
   */
  lemma OnlyTheExpirationIsForeseen(full: Session, part: Session, c: Config, rules: Rules, cut: int)
    requires ValidConfig(c) && UsesSpotBars(c) && Shortened(full, part, c, cut) && PicksFromChain(rules)
    requires |ExpirationOf(part, c, rules)| == 6 && |ExpirationOf(full, c, rules)| == 6
    requires EarlyTrades(full, part, c, rules) != [] || EarlyTrades(part, part, c, rules) != []
    ensures EarlyTrades(full, part, c, rules) == EarlyTrades(part, part, c, rules)
       <==> ExpirationOf(part, c, rules) == ExpirationOf(full, c, rules)
  {
    hide Replayed, ChainSnapshots, Spots, Filter, ExpirationOf, PicksFromChain;
    if ExpirationOf(part, c, rules) == ExpirationOf(full, c, rules) {
      NoLookAhead(full, part, c, rules, cut);
    }
    ReplayNames(full, c, rules);
    ReplayNames(part, c, rules);
    var e := LastSpotAt(ChainSnapshots(part, c));
    FilterMembers(Replayed(full, c, rules), ClosedBefore(e));
    FilterMembers(Replayed(part, c, rules), ClosedBefore(e));
    if EarlyTrades(full, part, c, rules) != [] {
      assert EarlyTrades(full, part, c, rules)[0] in EarlyTrades(full, part, c, rules);
    }
    if EarlyTrades(part, part, c, rules) != [] {
      assert EarlyTrades(part, part, c, rules)[0] in EarlyTrades(part, part, c, rules);
    }
  }

  lemma NothingIsEarly(e: int)
    ensures Filter([], ClosedBefore(e)) == []
  {
  }
}
