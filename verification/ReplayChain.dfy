/** What a replay reads of a session: which snapshots and bars, in what order, and by which expiration. */
module ReplayChain {
  import opened Bars
  import opened Replay
  import opened Seqs

  // ----- Snapshots -----

  /** The product a snapshot is of: its own, or the one its spot gives away. */
  function ProductOf(s: Snapshot): Option<string> {
    if s.underlying.Some? then s.underlying
    else if s.spot.Some? && s.spot.value >= 2000.0 then Some("SPXW")
    else if s.spot.Some? && s.spot.value > 0.0 then Some("SPY")
    else None
  }

  /** Whether a replay of this product reads the snapshot; fifteen-second bars without one are of the index. */
  function Belongs(c: Config): Snapshot -> bool {
    (s: Snapshot) =>
      if c.underlying == Some("SPY") then ProductOf(s) == Some("SPY")
      else if c.underlying == Some("SPXW") || c.signalBarSeconds == Some(15) then
        ProductOf(s) == Some("SPXW") || ProductOf(s) == Some("SPX")
      else true
  }

  lemma TagIsProduct(s: Snapshot)
    ensures TagOf(s) == ProductOf(s)
  {
  }

  lemma MatchesExactly(c: Config, s: Snapshot)
    requires ValidConfig(c)
    ensures (Wanted(c).None? || Matching(Wanted(c).value)(s.(underlying := TagOf(s)))) <==> Belongs(c)(s)
  {
    TagIsProduct(s);
    var tagged := s.(underlying := TagOf(s));
    assert TagOf(tagged) == TagOf(s);
    hide ProductOf, TagOf;
  }

  lemma {:induction false} TagAllElements(snaps: seq<Snapshot>)
    ensures |TagAll(snaps)| == |snaps|
    ensures forall i :: 0 <= i < |snaps| ==> TagAll(snaps)[i] == snaps[i].(underlying := TagOf(snaps[i]))
  {
    if snaps != [] {
      TagAllElements(snaps[1..]);
    }
    hide TagOf;
  }

  /** Filtering after tagging keeps as many as belong. */
  lemma {:induction false} AsManyBelong(snaps: seq<Snapshot>, c: Config)
    requires ValidConfig(c) && Wanted(c).Some?
    ensures |Filter(TagAll(snaps), Matching(Wanted(c).value))| == |Filter(snaps, Belongs(c))|
  {
    if snaps != [] {
      AsManyBelong(snaps[1..], c);
      MatchesExactly(c, snaps[0]);
      assert TagAll(snaps)[1..] == TagAll(snaps[1..]);
    }
    hide TagOf, Matching, Belongs, Wanted;
  }

  lemma SameSize(a: seq<Snapshot>, b: seq<Snapshot>)
    requires multiset(a) == multiset(b)
    ensures |a| == |b|
  {
    assert |multiset(a)| == |a| && |multiset(b)| == |b|;
  }

  lemma EveryoneBelongs(snaps: seq<Snapshot>, c: Config)
    requires ValidConfig(c) && Wanted(c).None?
    ensures Filter(snaps, Belongs(c)) == snaps
  {
    forall s | s in snaps ensures Belongs(c)(s) {
      MatchesExactly(c, s);
    }
    FilterAll(snaps, Belongs(c));
  }

  /** The chain is the recorded snapshots of the product, each as often as recorded and in time order. */
  lemma ChainIsExact(session: Session, c: Config)
    requires ValidConfig(c)
    ensures var chain := ChainSnapshots(session, c);
      && InOrder(chain)
      && |chain| == |Filter(session.snapshots, Belongs(c))|
      && (forall s :: s in chain <==>
            exists raw :: raw in session.snapshots && Belongs(c)(raw) && s == raw.(underlying := ProductOf(raw)))
  {
    var tags := TagAll(session.snapshots);
    var tagged := Sort(tags, NotAfter());
    var chain := ChainSnapshots(session, c);
    ChainIsInOrder(session, c);
    SortIsSorted(tags, NotAfter());
    TagAllElements(session.snapshots);
    if Wanted(c).Some? {
      AsManyBelong(session.snapshots, c);
      FilterMembers(tagged, Matching(Wanted(c).value));
      FilterSizes(tags, tagged, Matching(Wanted(c).value));
    } else {
      EveryoneBelongs(session.snapshots, c);
      SameSize(tags, tagged);
    }
    forall s ensures s in chain <==>
      exists raw :: raw in session.snapshots && Belongs(c)(raw) && s == raw.(underlying := ProductOf(raw))
    {
      InChain(session, c, s);
    }
    hide *;
  }

  lemma FilterSizes(a: seq<Snapshot>, b: seq<Snapshot>, p: Snapshot -> bool)
    requires b == Sort(a, NotAfter())
    ensures |Filter(b, p)| == |Filter(a, p)|
  {
    FilterSort(a, NotAfter(), p);
    SortIsSorted(Filter(a, p), NotAfter());
    SameSize(Filter(b, p), Filter(a, p));
  }

  lemma InChain(session: Session, c: Config, s: Snapshot)
    requires ValidConfig(c)
    ensures s in ChainSnapshots(session, c) <==>
      exists raw :: raw in session.snapshots && Belongs(c)(raw) && s == raw.(underlying := ProductOf(raw))
  {
    hide Matching, Belongs, Wanted, ProductOf, TagOf, Sort, Filter, TagAll;
    var tags := TagAll(session.snapshots);
    var tagged := Sort(tags, NotAfter());
    SortIsSorted(tags, NotAfter());
    TagAllElements(session.snapshots);
    if Wanted(c).Some? {
      FilterMembers(tagged, Matching(Wanted(c).value));
    }
    assert s in tagged <==> s in multiset(tagged);
    assert s in tags <==> s in multiset(tags);
    forall raw | raw in session.snapshots
      ensures (Wanted(c).None? || Matching(Wanted(c).value)(raw.(underlying := ProductOf(raw)))) <==> Belongs(c)(raw)
      ensures TagOf(raw) == ProductOf(raw)
    {
      MatchesExactly(c, raw);
      TagIsProduct(raw);
    }
    if s in ChainSnapshots(session, c) {
      var i :| 0 <= i < |tags| && tags[i] == s;
      assert session.snapshots[i] in session.snapshots;
    }
    if raw :| raw in session.snapshots && Belongs(c)(raw) && s == raw.(underlying := ProductOf(raw)) {
      var i :| 0 <= i < |session.snapshots| && session.snapshots[i] == raw;
      assert tags[i] == s;
    }
  }

  // ----- Bars -----

  /** The bars kept are those that start from 9:30 up to four o'clock, each as often as given, in time order. */
  lemma HoursAreExact(bars: seq<Bar>, rules: Rules)
    ensures var kept := InHours(bars, rules);
      && BarsInOrder(kept)
      && (forall b :: multiset(kept)[b] == if 570 <= rules.clockLabel(b.chartTime) < 960 then multiset(bars)[b] else 0)
  {
    HoursAreInOrder(bars, rules);
    SortIsSorted(Filter(bars, RegularHours(rules)), Earlier());
    forall b ensures multiset(InHours(bars, rules))[b]
      == if 570 <= rules.clockLabel(b.chartTime) < 960 then multiset(bars)[b] else 0
    {
      FilterCounts(bars, RegularHours(rules), b);
    }
    hide Filter, Sort;
  }

  lemma {:induction false} FilterCounts<T(!new)>(xs: seq<T>, p: T -> bool, x: T)
    ensures multiset(Filter(xs, p))[x] == if p(x) then multiset(xs)[x] else 0
  {
    if xs != [] {
      assert xs == [xs[0]] + xs[1..];
      FilterCounts(xs[1..], p, x);
    }
  }

  /** Whether bars are built from recorded spots, and how wide they are. */
  predicate FromSpots(c: Config) {
    c.underlying.Some? || c.signalBarSeconds == Some(15)
  }

  function WidthMs(c: Config): int {
    match c.signalBarSeconds
    case Some(seconds) => 1000 * seconds
    case None => if FromSpots(c) then 15_000 else 60_000
  }

  /**
   * A replay with a product, or on fifteen-second bars, builds its bars and minutes from the chain's spots and
   * reads its session start off the clock; any other reads the recorded bars and starts at the first. Without a
   * bar in hours or a snapshot there is nothing to replay.
   */
  lemma TapeIsRead(session: Session, c: Config, rules: Rules)
    requires ValidConfig(c)
    ensures WidthMs(c) > 0
    ensures var chain, spots := ChainSnapshots(session, c), FromSpots(c);
      var bars := InHours(if spots then SpotBars(chain, WidthMs(c)) else session.bars, rules);
      && (TapeOf(session, c, rules).None? <==> bars == [] || chain == [])
      && (TapeOf(session, c, rules).Some? ==>
          var tape := TapeOf(session, c, rules).value;
          && tape.snaps == chain && tape.bars == bars
          && tape.minutes == InHours(if spots then SpotBars(chain, 60_000) else session.bars, rules)
          && tape.start == (if spots then rules.sessionStart(bars[0].chartTime) else bars[0].chartTime)
          && tape.closeMs == if spots then WidthMs(c) else 0)
  {
    hide ChainSnapshots, SpotBars, InHours, FirstExpiration, FirstProduct;
    assert WidthMs(c) == BarMs(c);
  }

  // ----- The expiration -----

  predicate Spells(s: Snapshot) {
    s.expiration.Some? && s.expiration.value != ""
  }

  lemma {:induction false} FirstSpelling(snaps: seq<Snapshot>)
    ensures FirstExpiration(snaps).None? ==> forall i :: 0 <= i < |snaps| ==> !Spells(snaps[i])
    ensures FirstExpiration(snaps).Some? ==>
      exists i :: 0 <= i < |snaps| && Spells(snaps[i]) && snaps[i].expiration == FirstExpiration(snaps)
        && forall j :: 0 <= j < i ==> !Spells(snaps[j])
  {
    if snaps != [] && !Spells(snaps[0]) {
      FirstSpelling(snaps[1..]);
      if FirstExpiration(snaps).Some? {
        var i :| 0 <= i < |snaps[1..]| && Spells(snaps[1..][i]) && snaps[1..][i].expiration == FirstExpiration(snaps)
          && forall j :: 0 <= j < i ==> !Spells(snaps[1..][j]);
        assert Spells(snaps[i + 1]);
        assert forall j :: 0 <= j < i + 1 ==> j == 0 || snaps[j] == snaps[1..][j - 1];
      }
    }
  }

  /** Contracts are named by the earliest expiration on record, or by the date's own when there is none. */
  lemma ExpirationIsTheEarliest(session: Session, c: Config, rules: Rules)
    ensures var chain, expiration := ChainSnapshots(session, c), ExpirationOf(session, c, rules);
      if exists i :: 0 <= i < |chain| && Spells(chain[i])
      then exists i :: 0 <= i < |chain| && Spells(chain[i]) && chain[i].expiration == Some(expiration)
             && forall j :: 0 <= j < i ==> !Spells(chain[j])
      else expiration == rules.osiExpiration(session.etDateKey)
  {
    hide ChainSnapshots, FirstExpiration;
    FirstSpelling(ChainSnapshots(session, c));
  }
}
