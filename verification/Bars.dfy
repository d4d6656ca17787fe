/** Folding prints into fixed bars, and the four bars a completed minute stands in for. */
module Bars {
  import opened Market
  import opened Multiples
  import opened Seqs

  datatype Bar = Bar(open: real, high: real, low: real, close: real, volume: int, chartTime: int)

  datatype Print = Print(price: real, at: int)

  datatype Step = Step(current: Bar, closed: Option<Bar>)

  /** Start of the bucket a time falls in; `/` floors, as Math.floor does. */
  function Bucket(at: int, widthMs: int): int
    requires widthMs > 0
  {
    Times(at / widthMs, widthMs)
  }

  function PushPriceBar(current: Option<Bar>, price: real, at: int, widthMs: int): Step
    requires widthMs > 0
  {
    var bucket := Bucket(at, widthMs);
    if current.None? || current.value.chartTime != bucket then
      Step(Bar(price, price, price, price, 1, bucket), current)
    else
      var c := current.value;
      Step(Bar(c.open, MaxR(c.high, price), MinR(c.low, price), price, c.volume + 1, c.chartTime), None)
  }

  /** Bars closed so far, and the one still forming. */
  datatype Fold = Fold(closed: seq<Bar>, current: Option<Bar>)

  function Push(f: Fold, p: Print, widthMs: int): Fold
    requires widthMs > 0
  {
    var step := PushPriceBar(f.current, p.price, p.at, widthMs);
    Fold(if step.closed.Some? then f.closed + [step.closed.value] else f.closed, Some(step.current))
  }

  function FoldPrints(prints: seq<Print>, widthMs: int): Fold
    requires widthMs > 0
  {
    if prints == [] then Fold([], None)
    else Push(FoldPrints(prints[..|prints| - 1], widthMs), prints[|prints| - 1], widthMs)
  }

  function AllBars(f: Fold): seq<Bar> {
    if f.current.None? then f.closed else f.closed + [f.current.value]
  }

  // ----- The reference: group the prints of one bucket -----

  function InBucket(bucket: int, widthMs: int): Print -> bool
    requires widthMs > 0
  {
    (p: Print) => Bucket(p.at, widthMs) == bucket
  }

  function Highest(prints: seq<Print>): real
    requires prints != []
  {
    if |prints| == 1 then prints[0].price else MaxR(Highest(prints[..|prints| - 1]), prints[|prints| - 1].price)
  }

  function Lowest(prints: seq<Print>): real
    requires prints != []
  {
    if |prints| == 1 then prints[0].price else MinR(Lowest(prints[..|prints| - 1]), prints[|prints| - 1].price)
  }

  /** First, highest, lowest, last and count. */
  function BarOf(prints: seq<Print>, bucket: int): Bar
    requires prints != []
  {
    Bar(prints[0].price, Highest(prints), Lowest(prints), prints[|prints| - 1].price, |prints|, bucket)
  }

  predicate InTime(prints: seq<Print>) {
    forall i, j :: 0 <= i < j < |prints| ==> prints[i].at <= prints[j].at
  }

  predicate Rising(bars: seq<Bar>) {
    forall i, j :: 0 <= i < j < |bars| ==> bars[i].chartTime < bars[j].chartTime
  }

  function Volume(): Bar -> int {
    (b: Bar) => b.volume
  }

  /** The bar is the group of its own bucket's prints. */
  ghost predicate Groups(b: Bar, prints: seq<Print>, widthMs: int)
    requires widthMs > 0
  {
    var mine := Filter(prints, InBucket(b.chartTime, widthMs));
    mine != [] && b == BarOf(mine, b.chartTime) && Bucket(b.chartTime, widthMs) == b.chartTime
  }

  lemma BucketFacts(at: int, later: int, widthMs: int)
    requires widthMs > 0 && at <= later
    ensures Bucket(at, widthMs) <= at < Bucket(at, widthMs) + widthMs
    ensures Bucket(Bucket(at, widthMs), widthMs) == Bucket(at, widthMs)
    ensures Bucket(at, widthMs) <= Bucket(later, widthMs)
    ensures Bucket(at, widthMs) != Bucket(later, widthMs) ==> Bucket(at, widthMs) + widthMs <= Bucket(later, widthMs)
  {
    hide Times;
    var q, r := at / widthMs, later / widthMs;
    Divides(at, widthMs);
    Divides(later, widthMs);
    Unique(Bucket(at, widthMs), q, widthMs);
    Next(q, widthMs);
    Next(r, widthMs);
    if r + 1 <= q {
      Grows(r + 1, q, widthMs);
    }
    if q + 1 <= r {
      Grows(q + 1, r, widthMs);
    }
  }

  lemma BarOfSnoc(prints: seq<Print>, p: Print, bucket: int)
    requires prints != []
    ensures var b := BarOf(prints, bucket);
      BarOf(prints + [p], bucket)
        == Bar(b.open, MaxR(b.high, p.price), MinR(b.low, p.price), p.price, b.volume + 1, bucket)
  {
    assert (prints + [p])[..|prints|] == prints;
  }

  lemma FoldSnoc(prints: seq<Print>, p: Print, widthMs: int)
    requires widthMs > 0
    ensures FoldPrints(prints + [p], widthMs) == Push(FoldPrints(prints, widthMs), p, widthMs)
  {
    assert (prints + [p])[..|prints|] == prints;
  }

  ghost predicate HasBar(bars: seq<Bar>, bucket: int) {
    exists b :: b in bars && b.chartTime == bucket
  }

  /** What the fold knows: the forming bar holds the latest bucket, every bar groups its bucket. */
  ghost predicate Grouped(f: Fold, prints: seq<Print>, widthMs: int)
    requires widthMs > 0
  {
    && (f.current.None? <==> prints == [])
    && (f.current.None? ==> f.closed == [])
    && (prints != [] ==> f.current.value.chartTime == Bucket(prints[|prints| - 1].at, widthMs))
    && Rising(AllBars(f))
    && (forall b :: b in AllBars(f) ==> Groups(b, prints, widthMs))
    && (forall p :: p in prints ==> HasBar(AllBars(f), Bucket(p.at, widthMs)))
    && SumOf(AllBars(f), Volume()) == |prints|
  }

  /**
   * The fold groups prints by bucket: bars rise, each is first/high/low/last/count of its bucket, and no print
   * is lost.
   */
  lemma {:induction false} FoldGroupsByBucket(prints: seq<Print>, widthMs: int)
    requires widthMs > 0 && InTime(prints)
    ensures Grouped(FoldPrints(prints, widthMs), prints, widthMs)
  {
    if prints != [] {
      var init, p := prints[..|prints| - 1], prints[|prints| - 1];
      assert prints == init + [p];
      FoldGroupsByBucket(init, widthMs);
      FoldSnoc(init, p, widthMs);
      PushGroups(FoldPrints(init, widthMs), init, p, widthMs);
    }
  }

  lemma PushGroups(f: Fold, prints: seq<Print>, p: Print, widthMs: int)
    requires widthMs > 0 && InTime(prints + [p])
    requires Grouped(f, prints, widthMs)
    ensures Grouped(Push(f, p, widthMs), prints + [p], widthMs)
  {
    var bucket := Bucket(p.at, widthMs);
    assert (prints + [p])[|prints|] == p;
    BucketFacts(p.at, p.at, widthMs);
    if prints != [] {
      assert (prints + [p])[|prints| - 1] == prints[|prints| - 1];
      BucketFacts(prints[|prints| - 1].at, p.at, widthMs);
    }
    if f.current.None? || f.current.value.chartTime != bucket {
      NewBucket(f, prints, p, widthMs);
    } else {
      SameBucket(f, prints, p, widthMs);
    }
  }

  lemma LastIsLatest(f: Fold, prints: seq<Print>, widthMs: int, b: Bar)
    requires widthMs > 0 && Grouped(f, prints, widthMs) && b in AllBars(f)
    ensures f.current.Some? && b.chartTime <= f.current.value.chartTime
  {
    var bars := AllBars(f);
    var i :| 0 <= i < |bars| && bars[i] == b;
    assert bars[|bars| - 1] == f.current.value;
  }

  lemma NoneYet(f: Fold, prints: seq<Print>, bucket: int, widthMs: int)
    requires widthMs > 0 && Grouped(f, prints, widthMs)
    requires f.current.Some? ==> f.current.value.chartTime < bucket
    ensures Filter(prints, InBucket(bucket, widthMs)) == []
    ensures forall b :: b in AllBars(f) ==> b.chartTime < bucket
  {
    hide AllBars, BarOf, Groups, Bucket;
    forall b | b in AllBars(f) ensures b.chartTime < bucket {
      LastIsLatest(f, prints, widthMs, b);
    }
    forall q | q in prints ensures Bucket(q.at, widthMs) != bucket {
      assert HasBar(AllBars(f), Bucket(q.at, widthMs));
    }
    FilterNone(prints, InBucket(bucket, widthMs));
  }

  lemma OthersStand(b: Bar, prints: seq<Print>, p: Print, widthMs: int)
    requires widthMs > 0 && Groups(b, prints, widthMs) && b.chartTime != Bucket(p.at, widthMs)
    ensures Groups(b, prints + [p], widthMs)
  {
    FilterSnoc(prints, p, InBucket(b.chartTime, widthMs));
  }

  lemma FirstOfBucket(prints: seq<Print>, p: Print, widthMs: int)
    requires widthMs > 0 && Filter(prints, InBucket(Bucket(p.at, widthMs), widthMs)) == []
    ensures Groups(Bar(p.price, p.price, p.price, p.price, 1, Bucket(p.at, widthMs)), prints + [p], widthMs)
  {
    FilterSnoc(prints, p, InBucket(Bucket(p.at, widthMs), widthMs));
    BucketFacts(p.at, p.at, widthMs);
  }

  /** Every print still has its bar when bars are only replaced by bars of the same bucket. */
  lemma BarsCover(bars: seq<Bar>, bars': seq<Bar>, prints: seq<Print>, p: Print, widthMs: int)
    requires widthMs > 0
    requires forall q :: q in prints ==> HasBar(bars, Bucket(q.at, widthMs))
    requires |bars| <= |bars'| && forall i :: 0 <= i < |bars| ==> bars'[i].chartTime == bars[i].chartTime
    requires bars' != [] && bars'[|bars'| - 1].chartTime == Bucket(p.at, widthMs)
    ensures forall q :: q in prints + [p] ==> HasBar(bars', Bucket(q.at, widthMs))
  {
    hide Bucket;
    forall q | q in prints + [p] ensures HasBar(bars', Bucket(q.at, widthMs)) {
      if q in prints {
        assert HasBar(bars, Bucket(q.at, widthMs));
        var i :| 0 <= i < |bars| && bars[i].chartTime == Bucket(q.at, widthMs);
        assert bars'[i] in bars';
      } else {
        assert bars'[|bars'| - 1] in bars';
      }
    }
  }

  lemma NewBucket(f: Fold, prints: seq<Print>, p: Print, widthMs: int)
    requires widthMs > 0 && Grouped(f, prints, widthMs)
    requires f.current.Some? ==> f.current.value.chartTime < Bucket(p.at, widthMs)
    ensures Grouped(Push(f, p, widthMs), prints + [p], widthMs)
  {
    hide BarOf, Groups, Bucket, Filter, HasBar, SumOf;
    var bucket := Bucket(p.at, widthMs);
    var started := Bar(p.price, p.price, p.price, p.price, 1, bucket);
    assert AllBars(Push(f, p, widthMs)) == AllBars(f) + [started];
    NoneYet(f, prints, bucket, widthMs);
    forall b | b in AllBars(f) ensures Groups(b, prints + [p], widthMs) {
      OthersStand(b, prints, p, widthMs);
    }
    FirstOfBucket(prints, p, widthMs);
    SumOfSnoc(AllBars(f), started, Volume());
    BarsCover(AllBars(f), AllBars(f) + [started], prints, p, widthMs);
  }

  lemma NextOfBucket(b: Bar, prints: seq<Print>, p: Print, widthMs: int)
    requires widthMs > 0 && Groups(b, prints, widthMs) && b.chartTime == Bucket(p.at, widthMs)
    ensures Groups(Bar(b.open, MaxR(b.high, p.price), MinR(b.low, p.price), p.price, b.volume + 1, b.chartTime),
                   prints + [p], widthMs)
  {
    hide Bucket;
    FilterSnoc(prints, p, InBucket(b.chartTime, widthMs));
    BarOfSnoc(Filter(prints, InBucket(b.chartTime, widthMs)), p, b.chartTime);
  }

  lemma SameBucket(f: Fold, prints: seq<Print>, p: Print, widthMs: int)
    requires widthMs > 0 && Grouped(f, prints, widthMs)
    requires f.current.Some? && f.current.value.chartTime == Bucket(p.at, widthMs)
    ensures Grouped(Push(f, p, widthMs), prints + [p], widthMs)
  {
    hide BarOf, Groups, Bucket, Filter, HasBar, SumOf;
    var was, now := f.current.value, Push(f, p, widthMs).current.value;
    assert AllBars(f) == f.closed + [was] && AllBars(Push(f, p, widthMs)) == f.closed + [now];
    assert was in AllBars(f);
    NextOfBucket(was, prints, p, widthMs);
    forall b | b in f.closed ensures Groups(b, prints + [p], widthMs) {
      var i :| 0 <= i < |f.closed| && f.closed[i] == b;
      assert AllBars(f)[i] == b && AllBars(f)[|f.closed|] == was;
      OthersStand(b, prints, p, widthMs);
    }
    SumOfSnoc(f.closed, was, Volume());
    SumOfSnoc(f.closed, now, Volume());
    BarsCover(AllBars(f), AllBars(Push(f, p, widthMs)), prints, p, widthMs);
  }

  // ----- Coarser bars -----

  /** Merge a later bar into one that is forming. */
  function Merge(a: Bar, b: Bar): Bar {
    Bar(a.open, MaxR(a.high, b.high), MinR(a.low, b.low), b.close, a.volume + b.volume, a.chartTime)
  }

  /** Group finer bars into wider ones, in order. */
  function PushBar(f: Fold, b: Bar, widthMs: int): Fold
    requires widthMs > 0
  {
    var bucket := Bucket(b.chartTime, widthMs);
    if f.current.Some? && f.current.value.chartTime == bucket then Fold(f.closed, Some(Merge(f.current.value, b)))
    else Fold(AllBars(f), Some(b.(chartTime := bucket)))
  }

  function Coarsen(bars: seq<Bar>, widthMs: int): Fold
    requires widthMs > 0
  {
    if bars == [] then Fold([], None)
    else PushBar(Coarsen(bars[..|bars| - 1], widthMs), bars[|bars| - 1], widthMs)
  }

  lemma BucketOfBucket(at: int, fine: int, k: int)
    requires fine > 0 && k > 0 && fine * k > 0
    ensures Bucket(Bucket(at, fine), fine * k) == Bucket(at, fine * k)
  {
    hide Times;
    var w := fine * k;
    var q := at / w;
    Divides(at, w);
    Divides(at, fine);
    Assoc(q, k, fine);
    if at / fine + 1 <= q * k {
      Grows(at / fine + 1, q * k, fine);
      Next(at / fine, fine);
    } else {
      Grows(q * k, at / fine, fine);
    }
    Unique(Bucket(at, fine), q, w);
  }

  /** Folding into fine bars and grouping those is folding straight into the wide bars. */
  lemma {:induction false} CoarseningIsFolding(prints: seq<Print>, fine: int, k: int)
    requires fine > 0 && k > 0 && fine * k > 0
    ensures Coarsen(AllBars(FoldPrints(prints, fine)), fine * k) == FoldPrints(prints, fine * k)
  {
    if prints != [] {
      var init, p := prints[..|prints| - 1], prints[|prints| - 1];
      assert prints == init + [p];
      CoarseningIsFolding(init, fine, k);
      FoldSnoc(init, p, fine);
      FoldSnoc(init, p, fine * k);
      CurrentIsLast(init, fine);
      CoarsePush(FoldPrints(init, fine), p, fine, k, FoldPrints(init, fine * k));
    }
  }

  lemma {:induction false} CurrentIsLast(prints: seq<Print>, widthMs: int)
    requires widthMs > 0
    ensures var f := FoldPrints(prints, widthMs);
      f.current.Some? ==> Bucket(f.current.value.chartTime, widthMs) == f.current.value.chartTime
    ensures FoldPrints(prints, widthMs).current.None? ==> prints == [] && FoldPrints(prints, widthMs).closed == []
  {
    if prints != [] {
      var init, p := prints[..|prints| - 1], prints[|prints| - 1];
      CurrentIsLast(init, widthMs);
      BucketOfBucket(p.at, widthMs, 1);
    }
  }

  lemma CoarsenSnoc(bars: seq<Bar>, b: Bar, widthMs: int)
    requires widthMs > 0
    ensures Coarsen(bars + [b], widthMs) == PushBar(Coarsen(bars, widthMs), b, widthMs)
  {
    assert (bars + [b])[..|bars|] == bars;
  }

  lemma CoarsePush(f: Fold, p: Print, fine: int, k: int, wide: Fold)
    requires fine > 0 && k > 0 && fine * k > 0
    requires f.current.None? ==> f.closed == []
    requires Coarsen(AllBars(f), fine * k) == wide
    ensures Coarsen(AllBars(Push(f, p, fine)), fine * k) == Push(wide, p, fine * k)
  {
    var w := fine * k;
    BucketOfBucket(p.at, fine, k);
    var started := Bar(p.price, p.price, p.price, p.price, 1, Bucket(p.at, fine));
    if f.current.None? || f.current.value.chartTime != Bucket(p.at, fine) {
      assert AllBars(Push(f, p, fine)) == AllBars(f) + [started];
      CoarsenSnoc(AllBars(f), started, w);
      if f.current.Some? {
        CoarsenSnoc(f.closed, f.current.value, w);
      }
    } else {
      var c := f.current.value;
      var c' := Push(f, p, fine).current.value;
      assert AllBars(f) == f.closed + [c] && AllBars(Push(f, p, fine)) == f.closed + [c'];
      CoarsenSnoc(f.closed, c, w);
      CoarsenSnoc(f.closed, c', w);
      assert Bucket(c.chartTime, w) == Bucket(p.at, w);
    }
  }

  // ----- Completed minutes -----

  const MINUTE_MS: int := 60_000

  function FourBars(bar: Bar): seq<Bar> {
    [Bar(bar.open, bar.open, bar.open, bar.open, 1, bar.chartTime),
     Bar(bar.high, bar.high, bar.high, bar.high, 1, bar.chartTime + 15_000),
     Bar(bar.low, bar.low, bar.low, bar.low, 1, bar.chartTime + 30_000),
     Bar(bar.close, bar.close, bar.close, bar.close, Max(bar.volume, 1), bar.chartTime + 45_000)]
  }

  function Completed(nowMs: int): Bar -> bool {
    (b: Bar) => b.chartTime < Bucket(nowMs, MINUTE_MS)
  }

  function Expand(minutes: seq<Bar>): seq<Bar> {
    if minutes == [] then [] else Expand(minutes[..|minutes| - 1]) + FourBars(minutes[|minutes| - 1])
  }

  method ExpandCompletedMinutes(minutes: seq<Bar>, nowMs: int) returns (out: seq<Bar>)
    ensures out == Expand(Filter(minutes, Completed(nowMs)))
  {
    var currentMinute := nowMs / 60_000 * 60_000;
    out := [];
    for i := 0 to |minutes|
      invariant out == Expand(Filter(minutes[..i], Completed(nowMs)))
    {
      assert minutes[..i + 1] == minutes[..i] + [minutes[i]];
      FilterSnoc(minutes[..i], minutes[i], Completed(nowMs));
      if minutes[i].chartTime < currentMinute {
        ExpandSnoc(Filter(minutes[..i], Completed(nowMs)), minutes[i]);
        out := out + FourBars(minutes[i]);
      }
    }
    assert minutes[..|minutes|] == minutes;
  }

  /** The stand-ins are four flat bars a quarter of a minute apart, and carry the minute's volume last. */
  lemma StandInsAreQuarters(bar: Bar)
    ensures var four := FourBars(bar);
      && |four| == 4
      && (forall i :: 0 <= i < 4 ==>
            && four[i].chartTime == bar.chartTime + 15_000 * i
            && four[i].open == four[i].high == four[i].low == four[i].close)
      && four[0].volume == four[1].volume == four[2].volume == 1
      && four[3].volume >= 1 && (bar.volume >= 1 ==> four[3].volume == bar.volume)
      && (bar.volume < 1 ==> four[3].volume == 1)
  {
  }

  /** A minute counts as completed exactly when all of it is past. */
  lemma CompletedExactly(b: Bar, nowMs: int)
    requires b.chartTime % MINUTE_MS == 0
    ensures Completed(nowMs)(b) <==> b.chartTime + 60_000 <= nowMs
  {
  }

  lemma ExpandSnoc(minutes: seq<Bar>, b: Bar)
    ensures Expand(minutes + [b]) == Expand(minutes) + FourBars(b)
  {
    assert (minutes + [b])[..|minutes|] == minutes;
  }

  predicate WellFormed(b: Bar) {
    b.low <= b.open <= b.high && b.low <= b.close <= b.high && b.chartTime % MINUTE_MS == 0
  }

  /** A minute's four stand-ins, each read as one print at its close. */
  function AsPrints(bars: seq<Bar>): seq<Print> {
    seq(|bars|, i requires 0 <= i < |bars| => Print(bars[i].close, bars[i].chartTime))
  }

  predicate SameOhlc(a: Bar, b: Bar) {
    (a.open, a.high, a.low, a.close, a.chartTime) == (b.open, b.high, b.low, b.close, b.chartTime)
  }

  predicate SameBars(a: seq<Bar>, b: seq<Bar>) {
    |a| == |b| && forall i :: 0 <= i < |a| ==> SameOhlc(a[i], b[i])
  }

  lemma MinuteBuckets(t: int)
    requires t % MINUTE_MS == 0
    ensures Bucket(t, MINUTE_MS) == t && Bucket(t + 15_000, MINUTE_MS) == t
    ensures Bucket(t + 30_000, MINUTE_MS) == t && Bucket(t + 45_000, MINUTE_MS) == t
  {
  }

  /** The four stand-ins of one minute fold into that minute. */
  lemma FourFoldBack(f: Fold, bar: Bar)
    requires WellFormed(bar)
    requires f.current.Some? ==> f.current.value.chartTime < bar.chartTime
    ensures var four := AsPrints(FourBars(bar));
      var two := Push(Push(f, four[0], MINUTE_MS), four[1], MINUTE_MS);
      var r := Push(Push(two, four[2], MINUTE_MS), four[3], MINUTE_MS);
      r.closed == AllBars(f) && r.current.Some? && SameOhlc(r.current.value, bar)
  {
    MinuteBuckets(bar.chartTime);
  }

  lemma FoldFour(prints: seq<Print>, a: Print, b: Print, c: Print, d: Print)
    ensures FoldPrints(prints + [a, b, c, d], MINUTE_MS)
         == Push(Push(Push(Push(FoldPrints(prints, MINUTE_MS), a, MINUTE_MS), b, MINUTE_MS), c, MINUTE_MS),
                 d, MINUTE_MS)
  {
    hide Push;
    FoldSnoc(prints, a, MINUTE_MS);
    FoldSnoc(prints + [a], b, MINUTE_MS);
    FoldSnoc(prints + [a] + [b], c, MINUTE_MS);
    FoldSnoc(prints + [a] + [b] + [c], d, MINUTE_MS);
    assert prints + [a, b, c, d] == prints + [a] + [b] + [c] + [d];
  }

  /** One more well-formed minute, later than all before it. */
  lemma MinuteFoldsBack(prints: seq<Print>, bar: Bar)
    requires WellFormed(bar)
    requires var f := FoldPrints(prints, MINUTE_MS); f.current.Some? ==> f.current.value.chartTime < bar.chartTime
    ensures var all := AllBars(FoldPrints(prints + AsPrints(FourBars(bar)), MINUTE_MS));
      all != [] && SameOhlc(all[|all| - 1], bar) && all[..|all| - 1] == AllBars(FoldPrints(prints, MINUTE_MS))
  {
    hide Push, FoldPrints;
    var four := AsPrints(FourBars(bar));
    assert four == [four[0], four[1], four[2], four[3]];
    FoldFour(prints, four[0], four[1], four[2], four[3]);
    FourFoldBack(FoldPrints(prints, MINUTE_MS), bar);
    var r := FoldPrints(prints + four, MINUTE_MS);
    assert SameOhlc(r.current.value, bar);
  }

  lemma AsPrintsConcat(xs: seq<Bar>, ys: seq<Bar>)
    ensures AsPrints(xs + ys) == AsPrints(xs) + AsPrints(ys)
  {
  }

  /**
   * Expanding well-formed minutes and folding the stand-ins back to minutes returns their open, high, low and
   * close.
   */
  lemma {:induction false} ExpandedMinutesFoldBack(minutes: seq<Bar>)
    requires Rising(minutes) && forall b :: b in minutes ==> WellFormed(b)
    ensures SameBars(AllBars(FoldPrints(AsPrints(Expand(minutes)), MINUTE_MS)), minutes)
  {
    hide FoldPrints, AsPrints, FourBars, WellFormed;
    if minutes == [] {
      NothingFolds();
    } else {
      var init, bar := minutes[..|minutes| - 1], minutes[|minutes| - 1];
      assert minutes == init + [bar];
      ExpandedMinutesFoldBack(init);
      ExpandSnoc(init, bar);
      AsPrintsConcat(Expand(init), FourBars(bar));
      var f := FoldPrints(AsPrints(Expand(init)), MINUTE_MS);
      if f.current.Some? {
        assert AllBars(f)[|AllBars(f)| - 1] == f.current.value;
        assert SameOhlc(AllBars(f)[|init| - 1], init[|init| - 1]);
      }
      MinuteFoldsBack(AsPrints(Expand(init)), bar);
    }
  }

  lemma NothingFolds()
    ensures AllBars(FoldPrints(AsPrints(Expand([])), MINUTE_MS)) == []
  {
    assert AsPrints(Expand([])) == [];
  }
}
