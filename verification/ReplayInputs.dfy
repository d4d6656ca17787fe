/** Inputs on which a replay looks ahead: minute bars, and an expiration that is recorded late. */
module ReplayInputs {
  import opened Bars
  import opened Ladder
  import opened LadderLaws
  import opened Market
  import opened Osi
  import opened Replay
  import opened ReplayAhead
  import opened ReplayLaws
  import opened Seqs
  import opened Votes

  // ----- Rules that buy the chain's first call on a bar that closes over a dollar -----

  function BuysCalls(clockLabel: int -> int): Rules {
    Rules(
      clockLabel,
      (at: int) => 0,
      (etDateKey: string) => "260101",
      (bars: seq<Bar>) => None,
      (bars: seq<Bar>, start: int) =>
        if bars != [] && bars[|bars| - 1].close > 1.0 then map["a" := CALL] else map[],
      (direction: Direction, minutes: seq<Bar>, start: int, close: real) => true,
      (chain: seq<ChainQuote>, direction: Direction) => FirstCall(chain, direction))
  }

  function FirstCall(chain: seq<ChainQuote>, direction: Direction): Option<ChainQuote> {
    if chain != [] && direction == CALL && |chain[0].symbol| > 12 && chain[0].symbol[12] == 'C' then Some(chain[0])
    else None
  }

  lemma BuysFromChain(clockLabel: int -> int)
    ensures PicksFromChain(BuysCalls(clockLabel))
  {
  }

  /** One strategy, trades from the open to the flatten label, levels one ATR from the spot. */
  function Plain(underlying: Option<string>, signalBarSeconds: Option<int>, flattenAt: int): Config {
    Config(
      ["a"], ANY, None, None, {CALL}, 0, OPEN_LABEL, flattenAt, flattenAt,
      false, 0.0, false, 0.0, false, 0.0, 0.0, 0.0, 1.0, 1.0, 100.0, 1000.0,
      underlying, signalBarSeconds, None, false, None, false, 0.0, false, 0.0, None, false, 0.65)
  }

  /** A call struck at five dollars, quoted at ninety cents to a dollar. */
  const FIVE: Row := Row(5.0, 0, None, Some(0.9), Some(1.0))

  function Sampled(at: int, expiration: Option<string>): Snapshot {
    Snapshot(at, Some(2.0), [FIVE], expiration, Some("SPY"))
  }

  lemma FiveIsACall(expiration: string, underlying: Option<string>)
    requires |expiration| == 6
    ensures var chain := QuotesFromSnapshot([FIVE], expiration, underlying);
      && |chain| == 1 && FirstCall(chain, CALL) == Some(chain[0])
      && chain[0].ask == Some(1.0) && chain[0].bid == Some(0.9)
  {
    hide SymbolFor;
    SymbolParts(OsiRoot(underlying), expiration, 0, 5.0);
  }

  lemma FiveIsPicked(rules: Rules, expiration: string, underlying: Option<string>)
    requires |expiration| == 6 && rules == BuysCalls(rules.clockLabel)
    ensures var picked := rules.select(QuotesFromSnapshot([FIVE], expiration, underlying), CALL);
      picked.Some? && picked.value.ask == Some(1.0) && picked.value.bid == Some(0.9)
    ensures forall bars :: rules.atr(bars) == None
  {
    hide FirstCall, QuotesFromSnapshot;
    FiveIsACall(expiration, underlying);
  }

  lemma TenContracts(c: Config)
    requires c.profitLock.None? && c.equity == 1000.0 && c.riskPct == 100.0
    ensures Sized(c, 1.0) == 10
  {
    assert (1000.0 / (1.0 * 100.0)).Floor == 10;
  }

  /** The signal of the sixth bar or a later one, and none before. */
  lemma SignalOf(c: Config, rules: Rules, tape: Tape, i: nat, lastExitAt: Option<int>)
    requires i < |tape.bars|
    requires c == Plain(c.underlying, c.signalBarSeconds, c.hardFlattenTime) && rules == BuysCalls(rules.clockLabel)
    requires OPEN_LABEL <= rules.clockLabel(tape.bars[i].chartTime) < c.hardFlattenTime && lastExitAt.None?
    ensures SignalAt(c, rules, tape, i, lastExitAt)
         == if i >= 5 && tape.bars[i].close > 1.0 then Some(Signal(tape.bars[i].chartTime, ["a"], CALL)) else None
  {
    hide Filter;
    var window := tape.bars[..i + 1];
    assert LastBars(window, c.maxBars) == window;
    var votes: map<Id, Direction> := if tape.bars[i].close > 1.0 then map["a" := CALL] else map[];
    assert rules.evaluate(window, tape.start) == votes;
    OneVoter(votes, tape.bars[i].chartTime);
  }

  lemma OneVoter(votes: map<Id, Direction>, at: int)
    requires votes == map["a" := CALL] || votes == map[]
    ensures Combined(["a"], votes, at, ANY) == if votes == map[] then None else Some(Signal(at, ["a"], CALL))
  {
    assert ["a"][1..] == [];
    assert FirstVote(["a"], votes) == Vote(votes, "a");
    assert Voters(["a"], map["a" := CALL], CALL) == ["a"];
  }

  lemma FiveBarsPass(c: Config, rules: Rules, tape: Tape)
    requires Ordered(tape) && |tape.bars| >= 5
    requires c == Plain(c.underlying, c.signalBarSeconds, c.hardFlattenTime) && rules == BuysCalls(rules.clockLabel)
    requires forall i :: 0 <= i < 5 ==> OPEN_LABEL <= rules.clockLabel(tape.bars[i].chartTime) < c.hardFlattenTime
    ensures Scan(c, rules, tape, 0, None) == Scan(c, rules, tape, 5, None)
  {
    hide Scan, SignalAt, Ordered, FirstFrom, FirstAfter;
    SignalOf(c, rules, tape, 0, None);
    SignalOf(c, rules, tape, 1, None);
    SignalOf(c, rules, tape, 2, None);
    SignalOf(c, rules, tape, 3, None);
    SignalOf(c, rules, tape, 4, None);
    ScanUnfolds(c, rules, tape, 0, None);
    ScanUnfolds(c, rules, tape, 1, None);
    ScanUnfolds(c, rules, tape, 2, None);
    ScanUnfolds(c, rules, tape, 3, None);
    ScanUnfolds(c, rules, tape, 4, None);
  }

  /** A call without a premium stop, its levels fifty cents to either side of two dollars. */
  predicate HalfADollarOff(t: Ticket) {
    t.direction == CALL && t.stop.None? && t.levels == Levels(None, Some(1.5), Some(2.5))
  }

  lemma PlainLevels(c: Config, quantity: int)
    requires c == Plain(c.underlying, c.signalBarSeconds, c.hardFlattenTime)
    ensures LevelsFor(c, CALL, 1.0, 2.0, None) == Levels(None, Some(1.5), Some(2.5))
    ensures StopFor(c, 1.0, quantity) == None
    ensures c.profitLock.None? && c.equity == 1000.0 && c.riskPct == 100.0 && c.paperSlippageCents == 0.0
  {
  }

  lemma FiveIsBought(c: Config, rules: Rules, tape: Tape, i: nat, signal: Signal, s: Snapshot)
    requires i < |tape.bars| && |tape.expiration| == 6 && signal.direction == CALL
    requires s.quotes == [FIVE] && s.spot == Some(2.0)
    requires c == Plain(c.underlying, c.signalBarSeconds, c.hardFlattenTime) && rules == BuysCalls(rules.clockLabel)
    ensures var t := TicketFor(c, rules, tape, i, signal, s);
      && t.Some? && t.value.openedAt == s.at && HalfADollarOff(t.value)
      && t.value.entry == 1.0 && t.value.bid == Some(0.9)
  {
    hide QuotesFromSnapshot, StrikeOf, Sized, StopFor, LevelsFor, LastBars, Round2, Plain, BuysCalls;
    PlainLevels(c, 10);
    FiveIsPicked(rules, tape.expiration, if tape.product.Some? then tape.product else s.underlying);
    Round2Cents(100);
    TenContracts(c);
  }

  // ----- Minute bars -----

  function MinuteBar(i: int, close: real): Bar {
    Bar(2.0, 2.0, 1.0, close, 1, 60_000 * i)
  }

  /** Six minutes, the last with the given close, and one sample of the chain a second into it. */
  function SixMinutes(close: real): Session {
    Session("2026-01-01",
      [MinuteBar(0, 2.0), MinuteBar(1, 2.0), MinuteBar(2, 2.0),
       MinuteBar(3, 2.0), MinuteBar(4, 2.0), MinuteBar(5, close)],
      [Sampled(301_000, None)])
  }

  /** Sessions that start at noon; a label counts minutes. */
  function Noon(): int -> int {
    (at: int) => 720 + at / 60_000
  }

  const MINUTES: Config := Plain(None, Some(60), 955)

  function MinuteTape(close: real): Tape {
    Tape([Sampled(301_000, None)], SixMinutes(close).bars, SixMinutes(close).bars, 0, "260101", Some("SPY"), 0)
  }

  lemma HoursKeepAll(bars: seq<Bar>, rules: Rules)
    requires Rising(bars) && forall b :: b in bars ==> RegularHours(rules)(b)
    ensures InHours(bars, rules) == bars
  {
    HoursOfRising(bars, rules);
    FilterAll(bars, RegularHours(rules));
    hide Filter, InHours;
  }

  lemma MinuteTapeIs(close: real)
    ensures TapeOf(SixMinutes(close), MINUTES, BuysCalls(Noon())) == Some(MinuteTape(close))
    ensures Ordered(MinuteTape(close))
  {
    hide InHours, SpotBars;
    HoursKeepAll(SixMinutes(close).bars, BuysCalls(Noon()));
    OneSnapshot(Sampled(301_000, None));
    assert ChainSnapshots(SixMinutes(close), MINUTES) == [Sampled(301_000, None)];
  }

  lemma OneSnapshot(s: Snapshot)
    requires s.underlying.Some?
    ensures Sort(TagAll([s]), NotAfter()) == [s]
         && FirstExpiration([s]) == (if Given(s.expiration) then s.expiration else None)
  {
    assert [s][1..] == [] && [s][..0] == [];
    assert TagAll([s]) == [s];
  }

  /**
   * Two sessions that differ only in how their last minute closes. The one that closes high records a
   * position opened 59 seconds before that close, at the ask of a dollar over a bid of ninety cents; the other
   * records none.
   */
  lemma MinuteBarsLookAhead()
    ensures |Positions(SixMinutes(2.0), MINUTES, BuysCalls(Noon()))| >= 1
    ensures var p := Positions(SixMinutes(2.0), MINUTES, BuysCalls(Noon()))[0];
      && p.barAt == 300_000 && p.ticket.openedAt == 301_000 < p.barAt + MINUTE_MS
      && p.ticket.entry == 1.0 && p.ticket.bid == Some(0.9)
    ensures Positions(SixMinutes(1.0), MINUTES, BuysCalls(Noon())) == []
  {
    hide TapeOf, Scan, SignalAt, TicketFor, Watch, Ordered, FirstAfter;
    MinuteSignal(2.0);
    MinuteSignal(1.0);
    var rules, tape := BuysCalls(Noon()), MinuteTape(2.0);
    var signal := Signal(300_000, ["a"], CALL);
    assert FirstFrom(tape.snaps, 300_000) == 0;
    FiveIsBought(MINUTES, rules, tape, 5, signal, tape.snaps[0]);
    ScanUnfolds(MINUTES, rules, tape, 5, None);
    ScanUnfolds(MINUTES, rules, MinuteTape(1.0), 5, None);
    ScanEnds(MINUTES, rules, MinuteTape(1.0), None);
  }

  lemma MinuteSignal(close: real)
    ensures Ordered(MinuteTape(close))
         && TapeOf(SixMinutes(close), MINUTES, BuysCalls(Noon())) == Some(MinuteTape(close))
    ensures Positions(SixMinutes(close), MINUTES, BuysCalls(Noon()))
         == Scan(MINUTES, BuysCalls(Noon()), MinuteTape(close), 5, None)
    ensures SignalAt(MINUTES, BuysCalls(Noon()), MinuteTape(close), 5, None)
         == if close > 1.0 then Some(Signal(300_000, ["a"], CALL)) else None
  {
    hide TapeOf, Scan, SignalAt, Ordered;
    MinuteTapeIs(close);
    FiveBarsPass(MINUTES, BuysCalls(Noon()), MinuteTape(close));
    SignalOf(MINUTES, BuysCalls(Noon()), MinuteTape(close), 5, None);
  }

  // ----- A late expiration -----

  /** A sample every fifteen seconds, the eleventh with an expiration. */
  function Samples(n: nat): seq<Snapshot> {
    seq(n, i requires 0 <= i < n => Sampled(15_000 * i, if i == 10 then Some("260102") else None))
  }

  function SampledSession(n: nat): Session {
    Session("2026-01-01", [], Samples(n))
  }

  /** The flatten label is reached at the ninth sample, two minutes in. */
  const SPOTS: Config := Plain(Some("SPY"), Some(15), 722)

  function Flat(i: int): Bar {
    Bar(2.0, 2.0, 2.0, 2.0, 1, 15_000 * i)
  }

  function FlatBars(n: nat): seq<Bar> {
    seq(n, i requires 0 <= i < n => Flat(i))
  }

  lemma {:induction false} SpotsOfSamples(n: nat)
    ensures |Spots(Samples(n))| == n
    ensures forall i :: 0 <= i < n ==> Spots(Samples(n))[i] == Print(2.0, 15_000 * i)
  {
    if n > 0 {
      SpotsOfSamples(n - 1);
      assert Samples(n)[..n - 1] == Samples(n - 1);
    }
  }

  lemma {:induction false} FoldOfSamples(n: nat)
    requires n >= 1
    ensures FoldPrints(Spots(Samples(n)), 15_000) == Fold(FlatBars(n - 1), Some(Flat(n - 1)))
  {
    hide Push, Samples, Spots, FlatBars;
    SpotsOfSamples(n);
    SpotsOfSamples(n - 1);
    var prints := Spots(Samples(n));
    assert prints[..n - 1] == Spots(Samples(n - 1));
    if n == 1 {
      PushFlat(FoldPrints([], 15_000), 0);
      NoBars();
    } else {
      FoldOfSamples(n - 1);
      PushFlat(FoldPrints(Spots(Samples(n - 1)), 15_000), n - 1);
      FlatBarsSnoc(n - 2);
    }
  }

  lemma NoBars()
    ensures FlatBars(0) == []
  {
  }

  lemma PushFlat(f: Fold, i: nat)
    requires f.current.Some? ==> f.current.value.chartTime != 15_000 * i
    ensures Push(f, Print(2.0, 15_000 * i), 15_000) == Fold(AllBars(f), Some(Flat(i)))
  {
    assert 15_000 * i / 15_000 == i;
  }

  lemma SamplesAreTheChain(n: nat)
    ensures ChainSnapshots(SampledSession(n), SPOTS) == Samples(n)
  {
    TaggedSamples(Samples(n));
    SortSortedIsIdentity(Samples(n), NotAfter());
    FilterAll(Samples(n), Matching("SPY"));
    hide Filter, Sort, TagAll;
  }

  lemma {:induction false} TaggedSamples(snaps: seq<Snapshot>)
    requires forall s :: s in snaps ==> s.underlying.Some?
    ensures TagAll(snaps) == snaps
  {
    if snaps != [] {
      TaggedSamples(snaps[1..]);
      assert snaps == [snaps[0]] + snaps[1..];
    }
  }

  lemma {:induction false} NoneGiven(snaps: seq<Snapshot>)
    requires forall i :: 0 <= i < |snaps| ==> snaps[i].expiration == None
    ensures FirstExpiration(snaps) == None
  {
    if snaps != [] {
      NoneGiven(snaps[1..]);
    }
  }

  lemma {:induction false} LastGiven(snaps: seq<Snapshot>, last: Snapshot)
    requires forall i :: 0 <= i < |snaps| ==> snaps[i].expiration == None
    requires Given(last.expiration)
    ensures FirstExpiration(snaps + [last]) == last.expiration
  {
    if snaps != [] {
      assert (snaps + [last])[1..] == snaps[1..] + [last];
      LastGiven(snaps[1..], last);
    }
  }

  lemma SamplesSnoc(n: nat)
    ensures Samples(n + 1) == Samples(n) + [Sampled(15_000 * n, if n == 10 then Some("260102") else None)]
  {
  }

  lemma SamplesAre(n: nat, i: nat)
    requires i < n <= 10
    ensures Samples(n)[i].at == 15_000 * i && Samples(n)[i].expiration == None
  {
  }

  lemma ExpirationComesLate()
    ensures ExpirationOf(SampledSession(10), SPOTS, BuysCalls(Noon())) == "260101"
    ensures ExpirationOf(SampledSession(11), SPOTS, BuysCalls(Noon())) == "260102"
  {
    hide FirstExpiration, ChainSnapshots, Samples;
    SamplesAreTheChain(10);
    SamplesAreTheChain(11);
    forall i | 0 <= i < |Samples(10)| ensures Samples(10)[i].expiration == None {
      SampleCount(10);
      SamplesAre(10, i);
    }
    NoneGiven(Samples(10));
    LastGiven(Samples(10), Sampled(150_000, Some("260102")));
    SamplesSnoc(10);
  }

  lemma SampleCount(n: nat)
    ensures |Samples(n)| == n
  {
  }

  lemma CutEleventh()
    ensures Shortened(SampledSession(11), SampledSession(10), SPOTS, 135_000)
    ensures LastSpotAt(ChainSnapshots(SampledSession(10), SPOTS)) == 135_000
  {
    hide Spots, ChainSnapshots, Filter, Samples;
    SamplesAreTheChain(10);
    SpotsOfSamples(10);
    SampleCount(10);
    SamplesSnoc(10);
    FilterSnoc(Samples(10), Sampled(150_000, Some("260102")), Taken(135_000));
    forall s | s in Samples(10) ensures Taken(135_000)(s) {
      var i :| 0 <= i < |Samples(10)| && Samples(10)[i] == s;
      SamplesAre(10, i);
    }
    FilterAll(Samples(10), Taken(135_000));
  }

  function TenTape(minutes: seq<Bar>): Tape {
    Tape(Samples(10), FlatBars(9), minutes, 0, "260101", Some("SPY"), 15_000)
  }

  lemma TenTapeIs()
    ensures var tape := TapeOf(SampledSession(10), SPOTS, BuysCalls(Noon()));
      tape.Some? && tape.value == TenTape(tape.value.minutes) && Ordered(tape.value)
  {
    hide InHours, ChainSnapshots, ExpirationOf, FoldPrints;
    SamplesAreTheChain(10);
    FoldOfSamples(10);
    ExpirationComesLate();
    NineBars();
    SortedTape(SampledSession(10), SPOTS, BuysCalls(Noon()));
  }

  lemma FlatBarsSnoc(n: nat)
    ensures FlatBars(n + 1) == FlatBars(n) + [Flat(n)]
    ensures |FlatBars(n)| == n && Rising(FlatBars(n))
    ensures forall b :: b in FlatBars(n) ==> 0 <= b.chartTime <= 15_000 * (n - 1)
  {
  }

  lemma NineBars()
    ensures InHours(FlatBars(9), BuysCalls(Noon())) == FlatBars(9)
  {
    hide InHours, FlatBars;
    FlatBarsSnoc(9);
    forall b | b in FlatBars(9) ensures RegularHours(BuysCalls(Noon()))(b) {
    }
    HoursKeepAll(FlatBars(9), BuysCalls(Noon()));
  }

  lemma SixthBarTrades()
    ensures var ps := Positions(SampledSession(10), SPOTS, BuysCalls(Noon()));
      |ps| >= 1 && |ps[0].sales| >= 1 && ps[0].sales[0].at == 120_000
  {
    hide TapeOf, Scan, SignalAt, TicketFor, Watch, Ordered, FirstAfter, FirstFrom;
    TenTapeIs();
    var rules := BuysCalls(Noon());
    var tape := TapeOf(SampledSession(10), SPOTS, rules).value;
    FiveBarsPass(SPOTS, rules, tape);
    SignalOf(SPOTS, rules, tape, 5, None);
    var signal := Signal(75_000, ["a"], CALL);
    SeventhSample();
    FiveIsBought(SPOTS, rules, tape, 5, signal, tape.snaps[6]);
    ScanUnfolds(SPOTS, rules, tape, 5, None);
    FlattenedNext(rules, TicketFor(SPOTS, rules, tape, 5, signal, tape.snaps[6]).value);
  }

  lemma SeventhSample()
    ensures FirstFrom(Samples(10), 90_000) == 6
  {
    FirstFromIsFirst(Samples(10), 90_000);
    FoundByLast(Samples(10), 90_000);
    var k := FirstFrom(Samples(10), 90_000);
    assert Samples(10)[6].at == 90_000 && Samples(10)[k].at == 15_000 * k;
    hide FirstFrom;
  }

  lemma SampleHolds(rules: Rules, t: Ticket, s: Snapshot)
    requires rules == BuysCalls(Noon()) && HalfADollarOff(t) && s.at < 120_000 && s.spot == Some(2.0)
    ensures LookAt(SPOTS, rules, t, OnOpen(SPOTS, t), s).Stay?
    ensures LookAt(SPOTS, rules, t, OnOpen(SPOTS, t), s).sold.None?
  {
    hide FirstBid;
  }

  lemma FlattenedNext(rules: Rules, t: Ticket)
    requires rules == BuysCalls(Noon()) && HalfADollarOff(t)
    ensures var sales := Watch(SPOTS, rules, t, OnOpen(SPOTS, t), Samples(10), 7);
      |sales| >= 1 && sales[0].at == 120_000
  {
    var held := OnOpen(SPOTS, t);
    SampleHolds(rules, t, Samples(10)[7]);
    var next := LookAt(SPOTS, rules, t, held, Samples(10)[7]).held;
    assert Samples(10)[8].at == 120_000;
    assert LookAt(SPOTS, rules, t, next, Samples(10)[8]).Leave?;
  }

  /**
   * Ten samples without an expiration, and the same with an eleventh that has one: the trade closed at the
   * ninth sample is recorded under another symbol once the eleventh is there.
   */
  lemma LateExpirationIsForeseen()
    ensures Shortened(SampledSession(11), SampledSession(10), SPOTS, 135_000)
    ensures EarlyTrades(SampledSession(11), SampledSession(10), SPOTS, BuysCalls(Noon()))
         != EarlyTrades(SampledSession(10), SampledSession(10), SPOTS, BuysCalls(Noon()))
  {
    hide Replayed, ChainSnapshots, Spots, Filter, ExpirationOf, PicksFromChain, Positions;
    var rules := BuysCalls(Noon());
    CutEleventh();
    ExpirationComesLate();
    BuysFromChain(Noon());
    OneEarlyTrade();
    OnlyTheExpirationIsForeseen(SampledSession(11), SampledSession(10), SPOTS, rules, 135_000);
  }

  lemma OneEarlyTrade()
    requires Spots(ChainSnapshots(SampledSession(10), SPOTS)) != []
    ensures EarlyTrades(SampledSession(10), SampledSession(10), SPOTS, BuysCalls(Noon())) != []
  {
    hide ChainSnapshots, Spots, Filter, Positions, RecordTrade;
    var rules := BuysCalls(Noon());
    CutEleventh();
    SixthBarTrades();
    var ps := Positions(SampledSession(10), SPOTS, rules);
    var rows := Replayed(SampledSession(10), SPOTS, rules);
    FirstRow("2026-01-01", SPOTS.commission, ps);
    FilterMembers(rows, ClosedBefore(135_000));
    assert rows[0] in rows;
    assert rows[0] in Filter(rows, ClosedBefore(135_000));
  }

  lemma FirstRow(etDateKey: string, commission: real, ps: seq<Position>)
    requires |ps| >= 1 && |ps[0].sales| >= 1
    ensures |RecordAll(etDateKey, commission, ps)| >= 1
    ensures RecordAll(etDateKey, commission, ps)[0].closedAt == ps[0].sales[0].at
  {
  }
}
