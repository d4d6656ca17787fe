/** What the ladder keeps over whole runs of bids, and what its arithmetic means. */
module LadderLaws {
  import opened Market
  import opened Seqs
  import opened Ladder

  // ----- Arithmetic -----

  lemma Round2Bounds(x: real)
    ensures x - 0.005 < Round2(x) <= x + 0.005
  {
    var y := x * 100.0 + 0.5;
    assert y - 1.0 < y.Floor as real <= y;
  }

  lemma Round2Monotone(x: real, y: real)
    requires x <= y
    ensures Round2(x) <= Round2(y)
  {
    assert (x * 100.0 + 0.5).Floor <= (y * 100.0 + 0.5).Floor;
  }

  lemma Round2Cents(cents: int)
    ensures Round2(cents as real / 100.0) == cents as real / 100.0
  {
    var x := cents as real / 100.0;
    assert x * 100.0 == cents as real;
    assert (cents as real + 0.5).Floor == cents;
  }

  /** With a whole-cent rate the round-trip commission is exactly linear in the quantity. */
  lemma CommissionIsLinear(quantity: nat, cents: nat)
    ensures CommissionForRoundTrip(quantity, cents as real / 100.0) == (2 * quantity * cents) as real / 100.0
  {
    LegInCents(quantity, cents);
    var leg := quantity * cents;
    assert 2 * quantity * cents == 2 * leg;
    TwoLegs(leg);
    hide CommissionForLeg, Round2;
  }

  lemma LegInCents(quantity: nat, cents: nat)
    ensures CommissionForLeg(quantity, cents as real / 100.0) == (quantity * cents) as real / 100.0
  {
    hide Round2;
    assert Max(0, quantity) == quantity;
    ProductInCents(quantity, cents);
    Round2Cents(quantity * cents);
  }

  lemma {:induction false} ProductInCents(quantity: nat, cents: nat)
    ensures quantity as real * (cents as real / 100.0) == (quantity * cents) as real / 100.0
  {
    var rate := cents as real / 100.0;
    if quantity == 0 {
      assert quantity * cents == 0;
    } else {
      ProductInCents(quantity - 1, cents);
      assert (quantity - 1) as real * rate + rate == quantity as real * rate;
      assert (quantity - 1) * cents + cents == quantity * cents;
    }
  }

  lemma TwoLegs(leg: nat)
    ensures Round2(leg as real / 100.0 * 2.0) == (2 * leg) as real / 100.0
  {
    hide Round2;
    assert leg as real / 100.0 * 2.0 == (2 * leg) as real / 100.0;
    Round2Cents(2 * leg);
  }

  /** Commission per share: what turns a bid into its break-even. */
  function PerShare(quantity: int, commission: real): real {
    commission / (100.0 * Qty(quantity))
  }

  lemma Cancel(x: real, y: real)
    requires y != 0.0
    ensures x / y * y == x && x * y / y == x
  {
  }

  /** The return of a bid, with the quantity cancelled. */
  lemma ReturnPerShare(bid: real, entry: real, quantity: int, commission: real)
    requires entry > 0.0
    ensures ReturnOnCostPct(bid, entry, quantity, commission)
         == (bid - entry - PerShare(quantity, commission)) / entry * 100.0
  {
    var q := Qty(quantity);
    var k := 100.0 * q;
    var cost := entry * 100.0 * q;
    assert cost == entry * k && cost > 0.0;
    Cancel(commission, k);
    assert (bid - entry) * 100.0 * q - commission == (bid - entry - commission / k) * k;
    CancelFactor(bid - entry - commission / k, entry, k);
  }

  lemma CancelFactor(x: real, y: real, k: real)
    requires y > 0.0 && k > 0.0
    ensures y * k != 0.0 && (x * k) / (y * k) == x / y
  {
    assert x / y * (y * k) == x * k by {
      Cancel(x, y);
      assert x / y * (y * k) == (x / y * y) * k;
    }
    Cancel(x / y, y * k);
  }

  /** `bidForReturnPct` and `returnOnCostPct` undo each other. */
  lemma ReturnAndBidAreInverse(x: real, entry: real, quantity: int, commission: real)
    requires entry > 0.0
    ensures ReturnOnCostPct(BidForReturnPct(x, entry, quantity, commission), entry, quantity, commission) == x
    ensures BidForReturnPct(ReturnOnCostPct(x, entry, quantity, commission), entry, quantity, commission) == x
  {
    var c := PerShare(quantity, commission);
    var bid := BidForReturnPct(x, entry, quantity, commission);
    ReturnPerShare(bid, entry, quantity, commission);
    assert bid - entry - c == x / 100.0 * entry;
    Cancel(x / 100.0, entry);
    ReturnPerShare(x, entry, quantity, commission);
    var r := (x - entry - c) / entry;
    Cancel(x - entry - c, entry);
    assert r * 100.0 / 100.0 == r;
    assert entry * (1.0 + r) == entry + r * entry;
  }

  lemma ReturnIsMonotone(a: real, b: real, entry: real, quantity: int, commission: real)
    requires a <= b
    ensures ReturnOnCostPct(a, entry, quantity, commission) <= ReturnOnCostPct(b, entry, quantity, commission)
  {
    if entry > 0.0 {
      ReturnPerShare(a, entry, quantity, commission);
      ReturnPerShare(b, entry, quantity, commission);
      DivideMonotone(a - entry - PerShare(quantity, commission), b - entry - PerShare(quantity, commission), entry);
    } else {
      assert entry * 100.0 * Qty(quantity) <= 0.0;
    }
  }

  lemma DivideMonotone(x: real, y: real, d: real)
    requires d > 0.0 && x <= y
    ensures x / d <= y / d
  {
    Cancel(x, d);
    Cancel(y, d);
    assert (y / d - x / d) * d == y - x;
  }

  // ----- One tick -----

  /** A tick never lowers the stop, and the peak is the larger of the old one and the bid. */
  lemma TickRatchets(lock: Lock)
    ensures var r := RatchetProfitLock(lock);
      && r.stop.Some?
      && (lock.stop.Some? ==> r.stop.value >= lock.stop.value)
      && r.stop.value >= DisasterStopBid(lock.entry, lock.quantity, lock.commission, lock.ladder)
      && r.peak == MaxR(OrElse(lock.peak, lock.entry), lock.bid)
      && (r.raised <==> lock.stop.None? || r.stop.value > lock.stop.value)
      && (r.source == TRAIL <==> r.armed)
  {
    hide DisasterStopBid, ReturnOnCostPct, BidForReturnPct, Round2;
  }

  predicate Armed(peak: real, entry: real, quantity: int, commission: real, ladder: Settings) {
    ReturnOnCostPct(peak, entry, quantity, commission) >= ladder.armPct
  }

  lemma ArmedByPeak(lock: Lock)
    ensures RatchetProfitLock(lock).armed
        <==> Armed(RatchetProfitLock(lock).peak, lock.entry, lock.quantity, lock.commission, lock.ladder)
  {
    hide DisasterStopBid, ReturnOnCostPct, BidForReturnPct, Round2;
  }

  /** A HOLD leaves the stop strictly under the bid. */
  lemma HoldIsAboveStop(t: Tick)
    requires DecideTickExit(t).Hold? && t.direction.Some?
    ensures DecideTickExit(t).ratchet.stop.Some?
    ensures t.lock.bid > DecideTickExit(t).ratchet.stop.value
  {
    TickRatchets(t.lock);
    hide RatchetProfitLock, TimeStopDue, ShouldScaleOut;
  }

  /** A new high that arms or is armed: the trail's own level is under the bid that made it. */
  lemma CappedBelowPeak(desired: real, peak: real)
    ensures Round2(MinR(desired, peak - 0.01)) < peak
  {
    Round2Bounds(MinR(desired, peak - 0.01));
  }

  lemma FloorUnderArm(bid: real, entry: real, quantity: int, commission: real, ladder: Settings)
    requires entry > 0.0 && Armed(bid, entry, quantity, commission, ladder)
    requires entry * (ladder.armPct + ladder.stopPct) > 0.5
    ensures bid > DisasterStopBid(entry, quantity, commission, ladder)
  {
    var c := PerShare(quantity, commission);
    var u := BidForReturnPct(-ladder.stopPct, entry, quantity, commission);
    Round2Bounds(u);
    ReturnPerShare(bid, entry, quantity, commission);
    Cancel(bid - entry - c, entry);
    var r := (bid - entry - c) / entry;
    assert r * 100.0 >= ladder.armPct;
    assert r * entry >= ladder.armPct / 100.0 * entry;
    assert u == entry - ladder.stopPct / 100.0 * entry + c;
  }

  /** With a whole-cent rate the ladder does not see the quantity. */
  lemma LadderIgnoresQuantity(lock: Lock, cents: nat, q: nat)
    requires q >= 1 && lock.quantity == q && lock.commission == CommissionForRoundTrip(q, cents as real / 100.0)
    requires lock.entry > 0.0
    ensures RatchetProfitLock(lock)
         == RatchetProfitLock(lock.(quantity := 1, commission := CommissionForRoundTrip(1, cents as real / 100.0)))
  {
    var one := CommissionForRoundTrip(1, cents as real / 100.0);
    CommissionIsLinear(q, cents);
    CommissionIsLinear(1, cents);
    assert PerShare(q, lock.commission) == PerShare(1, one) by {
      PerShareOfLinear(q, cents);
      PerShareOfLinear(1, cents);
    }
    hide CommissionForRoundTrip;
    var peak := MaxR(OrElse(lock.peak, lock.entry), lock.bid);
    ReturnPerShare(peak, lock.entry, q, lock.commission);
    ReturnPerShare(peak, lock.entry, 1, one);
    assert forall r :: BidForReturnPct(r, lock.entry, q, lock.commission) == BidForReturnPct(r, lock.entry, 1, one);
    hide ReturnOnCostPct, BidForReturnPct, Round2;
  }

  lemma PerShareOfLinear(q: nat, cents: nat)
    requires q >= 1
    ensures PerShare(q, (2 * q * cents) as real / 100.0) == cents as real / 5000.0
  {
    var x := cents as real / 5000.0;
    assert (2 * q * cents) as real / 100.0 == x * (100.0 * q as real);
    Cancel(x, 100.0 * q as real);
  }

  // ----- Whole runs of bids -----

  /** Peak, stop and arming as they stand between ticks. */
  datatype Level = Level(peak: Option<real>, stop: Option<real>, armed: bool)

  datatype Terms = Terms(entry: real, quantity: int, commission: real, ladder: Settings)

  function LockAt(terms: Terms, level: Level, bid: real): Lock {
    Lock(terms.entry, bid, level.peak, level.stop, terms.quantity, terms.commission, terms.ladder)
  }

  function Advance(terms: Terms, level: Level, bid: real): Level {
    var r := RatchetProfitLock(LockAt(terms, level, bid));
    Level(Some(r.peak), r.stop, r.armed)
  }

  function After(terms: Terms, level: Level, bids: seq<real>): Level {
    if bids == [] then level else Advance(terms, After(terms, level, bids[..|bids| - 1]), bids[|bids| - 1])
  }

  function RunningMax(start: real, bids: seq<real>): real {
    if bids == [] then start else MaxR(RunningMax(start, bids[..|bids| - 1]), bids[|bids| - 1])
  }

  /** The peak is the running maximum of the bids, from the first peak or the entry price. */
  lemma {:induction false} PeakIsRunningMax(terms: Terms, level: Level, bids: seq<real>)
    requires bids != []
    ensures After(terms, level, bids).peak == Some(RunningMax(OrElse(level.peak, terms.entry), bids))
  {
    hide RatchetProfitLock;
    var init := bids[..|bids| - 1];
    if init != [] {
      PeakIsRunningMax(terms, level, init);
    }
    TickRatchets(LockAt(terms, After(terms, level, init), bids[|bids| - 1]));
  }

  lemma StepKeepsGround(terms: Terms, level: Level, bid: real)
    ensures var next := Advance(terms, level, bid);
      && (level.stop.Some? ==> next.stop.Some? && next.stop.value >= level.stop.value)
      && OrElse(next.peak, terms.entry) >= OrElse(level.peak, terms.entry)
      && (next.armed
        <==> Armed(OrElse(next.peak, terms.entry), terms.entry, terms.quantity, terms.commission, terms.ladder))
  {
    TickRatchets(LockAt(terms, level, bid));
    ArmedByPeak(LockAt(terms, level, bid));
    hide RatchetProfitLock, Armed;
  }

  /** Over any run the stop never falls, the peak never falls, and arming is for good. */
  lemma {:induction false} RunsKeepGround(terms: Terms, level: Level, bids: seq<real>, more: seq<real>)
    requires bids != []
    ensures var a, b := After(terms, level, bids), After(terms, level, bids + more);
      && a.stop.Some? && b.stop.Some? && b.stop.value >= a.stop.value
      && OrElse(b.peak, terms.entry) >= OrElse(a.peak, terms.entry)
      && (a.armed ==> b.armed)
      && (a.armed <==> Armed(OrElse(a.peak, terms.entry), terms.entry, terms.quantity, terms.commission, terms.ladder))
      && (b.armed <==> Armed(OrElse(b.peak, terms.entry), terms.entry, terms.quantity, terms.commission, terms.ladder))
    decreases |more|
  {
    hide Advance;
    if more == [] {
      assert bids + more == bids;
      var before := After(terms, level, bids[..|bids| - 1]);
      StepKeepsGround(terms, before, bids[|bids| - 1]);
      AdvanceSetsStop(terms, before, bids[|bids| - 1]);
    } else {
      var init, last := more[..|more| - 1], more[|more| - 1];
      assert bids + more == (bids + init) + [last];
      assert (bids + more)[..|bids + init|] == bids + init;
      RunsKeepGround(terms, level, bids, init);
      var a, b := After(terms, level, bids), After(terms, level, bids + init);
      StepKeepsGround(terms, b, last);
      var c := Advance(terms, b, last);
      ReturnIsMonotone(OrElse(a.peak, terms.entry), OrElse(c.peak, terms.entry), terms.entry, terms.quantity,
        terms.commission);
      hide After, ReturnOnCostPct;
    }
  }

  lemma AdvanceSetsStop(terms: Terms, level: Level, bid: real)
    ensures Advance(terms, level, bid).stop.Some? && Advance(terms, level, bid).peak.Some?
  {
    TickRatchets(LockAt(terms, level, bid));
    hide RatchetProfitLock;
  }

  // ----- The stop of a whole run, in one formula -----

  /** Where the ladder alone would put the stop at a peak. */
  function LevelAt(terms: Terms, peak: real): real {
    var floor := DisasterStopBid(terms.entry, terms.quantity, terms.commission, terms.ladder);
    match LockedReturnFor(ReturnOnCostPct(peak, terms.entry, terms.quantity, terms.commission), terms.ladder)
    case None => floor
    case Some(locked) =>
      MaxR(floor, Round2(MinR(BidForReturnPct(locked, terms.entry, terms.quantity, terms.commission), peak - 0.01)))
  }

  lemma LockedIsMonotone(a: real, b: real, ladder: Settings)
    requires a <= b && ladder.tightGivebackPct <= ladder.givebackPct && LockedReturnFor(a, ladder).Some?
    ensures LockedReturnFor(b, ladder).Some? && LockedReturnFor(b, ladder).value >= LockedReturnFor(a, ladder).value
  {
  }

  lemma BidIsMonotone(a: real, b: real, entry: real, quantity: int, commission: real)
    requires a <= b && entry >= 0.0
    ensures BidForReturnPct(a, entry, quantity, commission) <= BidForReturnPct(b, entry, quantity, commission)
  {
    assert entry * (1.0 + b / 100.0) - entry * (1.0 + a / 100.0) == entry * ((b - a) / 100.0);
  }

  lemma LevelIsMonotone(terms: Terms, p: real, q: real)
    requires p <= q && terms.entry >= 0.0 && terms.ladder.tightGivebackPct <= terms.ladder.givebackPct
    ensures LevelAt(terms, p) <= LevelAt(terms, q)
  {
    hide ReturnOnCostPct, BidForReturnPct, LockedReturnFor, Round2;
    var a, b := ReturnOnCostPct(p, terms.entry, terms.quantity, terms.commission),
      ReturnOnCostPct(q, terms.entry, terms.quantity, terms.commission);
    ReturnIsMonotone(p, q, terms.entry, terms.quantity, terms.commission);
    if LockedReturnFor(a, terms.ladder).Some? {
      LockedIsMonotone(a, b, terms.ladder);
      var x, y := LockedReturnFor(a, terms.ladder).value, LockedReturnFor(b, terms.ladder).value;
      BidIsMonotone(x, y, terms.entry, terms.quantity, terms.commission);
      Round2Monotone(
        MinR(BidForReturnPct(x, terms.entry, terms.quantity, terms.commission), p - 0.01),
        MinR(BidForReturnPct(y, terms.entry, terms.quantity, terms.commission), q - 0.01));
    }
  }

  lemma AdvanceTakesLevel(terms: Terms, level: Level, bid: real)
    ensures var next, peak := Advance(terms, level, bid), MaxR(OrElse(level.peak, terms.entry), bid);
      && next.peak == Some(peak)
      && next.stop == Some(
        if level.stop.None? then LevelAt(terms, peak) else MaxR(level.stop.value, LevelAt(terms, peak)))
  {
    hide DisasterStopBid, ReturnOnCostPct, BidForReturnPct, LockedReturnFor, Round2;
  }

  /**
   * However the bids arrived, the stop they leave is one formula of the highest of them: the level
   * of the running maximum, or the first stop when that is higher.
   */
  lemma {:induction false} StopIsTheLevelOfThePeak(terms: Terms, level: Level, bids: seq<real>)
    requires bids != [] && terms.entry >= 0.0 && terms.ladder.tightGivebackPct <= terms.ladder.givebackPct
    ensures var top := LevelAt(terms, RunningMax(OrElse(level.peak, terms.entry), bids));
      After(terms, level, bids).stop == Some(if level.stop.None? then top else MaxR(level.stop.value, top))
  {
    hide Advance, LevelAt;
    var init, bid := bids[..|bids| - 1], bids[|bids| - 1];
    var start := OrElse(level.peak, terms.entry);
    AdvanceTakesLevel(terms, After(terms, level, init), bid);
    if init != [] {
      StopIsTheLevelOfThePeak(terms, level, init);
      PeakIsRunningMax(terms, level, init);
      LevelIsMonotone(terms, RunningMax(start, init), RunningMax(start, bids));
    }
  }

  // ----- New highs over whole runs -----

  /** The disaster level of an entry, which is the stop it is stamped with. */
  function Disaster(terms: Terms): real {
    DisasterStopBid(terms.entry, terms.quantity, terms.commission, terms.ladder)
  }

  /** The highest stop a run starts under: the one it was given, or the disaster level. */
  function Stamp(terms: Terms, level: Level): real {
    if level.stop.None? then Disaster(terms) else MaxR(level.stop.value, Disaster(terms))
  }

  lemma LevelIsUnderPeak(terms: Terms, peak: real)
    ensures LevelAt(terms, peak) >= Disaster(terms)
    ensures LevelAt(terms, peak) == Disaster(terms) || LevelAt(terms, peak) < peak
  {
    hide ReturnOnCostPct, BidForReturnPct, Round2;
    var locked := LockedReturnFor(ReturnOnCostPct(peak, terms.entry, terms.quantity, terms.commission), terms.ladder);
    CappedBelowPeak(BidForReturnPct(OrElse(locked, 0.0), terms.entry, terms.quantity, terms.commission), peak);
    hide DisasterStopBid;
  }

  /** A bid one cent over the disaster level has no other level yet. */
  lemma CentOverDisaster(terms: Terms)
    ensures LevelAt(terms, Disaster(terms) + 0.01) == Disaster(terms)
  {
    hide ReturnOnCostPct, BidForReturnPct;
    var floor := Disaster(terms);
    var worst := BidForReturnPct(-terms.ladder.stopPct, terms.entry, terms.quantity, terms.commission);
    Round2Cents((worst * 100.0 + 0.5).Floor);
    assert Round2(floor) == floor;
    var locked := LockedReturnFor(ReturnOnCostPct(floor + 0.01, terms.entry, terms.quantity, terms.commission),
      terms.ladder);
    if locked.Some? {
      var desired := BidForReturnPct(locked.value, terms.entry, terms.quantity, terms.commission);
      Round2Monotone(MinR(desired, floor), floor);
      hide Round2;
    }
  }

  /** Over any run the stop is the one it started with, or strictly under the peak. */
  lemma {:induction false} StopIsStampedOrUnderPeak(terms: Terms, level: Level, bids: seq<real>)
    ensures var after := After(terms, level, bids);
      && (after.stop.None? ==> level.stop.None?)
      && (after.stop.Some? ==>
        after.stop.value <= Stamp(terms, level) || after.stop.value < OrElse(after.peak, terms.entry))
      && (bids != [] ==> after.stop.Some? && after.stop.value >= Stamp(terms, level))
  {
    hide Advance, LevelAt, DisasterStopBid;
    if bids != [] {
      var init, bid := bids[..|bids| - 1], bids[|bids| - 1];
      StopIsStampedOrUnderPeak(terms, level, init);
      var before := After(terms, level, init);
      AdvanceTakesLevel(terms, before, bid);
      LevelIsUnderPeak(terms, MaxR(OrElse(before.peak, terms.entry), bid));
    }
  }

  /**
   * However the bids before it ran, a new high is at its own stop exactly when it is at the stop the run
   * started with. An entry is stamped with the disaster level, so for it that is the level to look at.
   */
  lemma {:induction false} NewHighStopsExactly(terms: Terms, level: Level, bids: seq<real>, bid: real)
    requires bid > OrElse(After(terms, level, bids).peak, terms.entry)
    ensures Advance(terms, After(terms, level, bids), bid).stop.Some?
    ensures bid <= Advance(terms, After(terms, level, bids), bid).stop.value <==> bid <= Stamp(terms, level)
  {
    hide Advance, LevelAt, DisasterStopBid, After;
    var before := After(terms, level, bids);
    StopIsStampedOrUnderPeak(terms, level, bids);
    AdvanceTakesLevel(terms, before, bid);
    LevelIsUnderPeak(terms, bid);
    EmptyRun(terms, level);
  }

  lemma EmptyRun(terms: Terms, level: Level)
    ensures After(terms, level, []) == level
  {
  }

  /** The tick of a ladder without levels leaves on its stop. */
  predicate SoldOnStop(t: Tick) {
    DecideTickExit(t).Exit? && DecideTickExit(t).reason in {PREMIUM_STOP, TRAIL_STOP}
  }

  lemma SoldOnStopExactly(t: Tick)
    requires t.direction.Some? && t.levels == NO_LEVELS
    ensures RatchetProfitLock(t.lock).stop.Some?
    ensures SoldOnStop(t)
       <==> !TimeStopDue(t.entry, t.lock, t.clock) && t.lock.bid <= RatchetProfitLock(t.lock).stop.value
  {
    TickRatchets(t.lock);
    hide RatchetProfitLock, TimeStopDue, ShouldScaleOut;
  }

  /**
   * Whatever bids came before, an armed tick that sets a new high of an entry stamped with its disaster
   * level is never sold on the stop, if arm and stop together are worth over half a cent of the entry.
   */
  lemma NewHighNeverStopsItself(terms: Terms, level: Level, bids: seq<real>, t: Tick)
    requires level.stop == Some(Disaster(terms))
    requires t.lock == LockAt(terms, After(terms, level, bids), t.lock.bid) && t.levels == NO_LEVELS
    requires t.lock.bid > OrElse(t.lock.peak, terms.entry) && RatchetProfitLock(t.lock).armed
    requires terms.entry > 0.0 && terms.entry * (terms.ladder.armPct + terms.ladder.stopPct) > 0.5
    ensures !SoldOnStop(t)
  {
    hide After, DisasterStopBid, ReturnOnCostPct, RatchetProfitLock, TimeStopDue, ShouldScaleOut;
    NewHighStopsExactly(terms, level, bids, t.lock.bid);
    ArmedByPeak(t.lock);
    TickRatchets(t.lock);
    FloorUnderArm(t.lock.bid, terms.entry, terms.quantity, terms.commission, terms.ladder);
    if t.direction.Some? {
      SoldOnStopExactly(t);
    }
  }

  const CENT: Terms := Terms(0.01, 1, 1.82, DEFAULT_PROFIT_LOCK)

  /**
   * A one-cent entry at 91 cents a leg, stamped at its disaster level of three cents: a first bid of three
   * cents arms the lock, is a new high, and is sold on the stop.
   */
  lemma NewHighCanStopItself(direction: Direction)
    ensures Disaster(CENT) == 0.03
    ensures var level := Level(Some(0.01), Some(0.03), false);
      var t := Tick(LockAt(CENT, level, 0.03), Some(direction), 0.0, NO_LEVELS, false, false, 1, 0.01,
        Clock(false, None, None, None, None));
      RatchetProfitLock(t.lock).armed && t.lock.bid > OrElse(t.lock.peak, CENT.entry) && SoldOnStop(t)
  {
    var level := Level(Some(0.01), Some(0.03), false);
    assert ReturnOnCostPct(0.03, 0.01, 1, 1.82) == 18.0;
    CentDisaster();
    EmptyRun(CENT, level);
    NewHighStopsExactly(CENT, level, [], 0.03);
    ArmedByPeak(LockAt(CENT, level, 0.03));
    TickRatchets(LockAt(CENT, level, 0.03));
    SoldOnStopExactly(Tick(
      LockAt(CENT, level, 0.03), Some(direction), 0.0, NO_LEVELS, false, false, 1, 0.01,
        Clock(false, None, None, None, None)));
    hide RatchetProfitLock, DisasterStopBid, After, DecideTickExit;
  }

  lemma CentDisaster()
    ensures Disaster(CENT) == 0.03
  {
    assert BidForReturnPct(-12.0, 0.01, 1, 1.82) == 0.027;
    assert (0.027 * 100.0 + 0.5).Floor == 3;
  }

  const NARROW: Terms := Terms(0.21, 1, 1.30, DEFAULT_PROFIT_LOCK)

  /**
   * Before it arms, it happens well away from rounding. Bought at an ask of 20 cents and a cent of slippage
   * under a bid of 19, at 65 cents a leg: the stamp is 20 cents, so a first tick at 20 is a new high over the
   * bid it was bought under, and is sold on the stop.
   */
  lemma UnarmedNewHighStopsItself(direction: Direction)
    ensures Disaster(NARROW) == 0.20
    ensures NARROW.entry * (NARROW.ladder.armPct + NARROW.ladder.stopPct) > 0.5
    ensures var level := Level(Some(0.19), Some(0.20), false);
      var t := Tick(LockAt(NARROW, level, 0.20), Some(direction), 0.0, NO_LEVELS, false, false, 1, 0.21,
        Clock(false, None, None, None, None));
      && t.lock.bid > OrElse(t.lock.peak, NARROW.entry)
      && !RatchetProfitLock(t.lock).armed && SoldOnStop(t)
  {
    var level := Level(Some(0.19), Some(0.20), false);
    assert ReturnOnCostPct(0.20, 0.21, 1, 1.30) < 8.0;
    NarrowDisaster();
    EmptyRun(NARROW, level);
    NewHighStopsExactly(NARROW, level, [], 0.20);
    ArmedByPeak(LockAt(NARROW, level, 0.20));
    TickRatchets(LockAt(NARROW, level, 0.20));
    SoldOnStopExactly(Tick(
      LockAt(NARROW, level, 0.20), Some(direction), 0.0, NO_LEVELS, false, false, 1, 0.21,
        Clock(false, None, None, None, None)));
    hide RatchetProfitLock, DisasterStopBid, After, DecideTickExit;
  }

  lemma NarrowDisaster()
    ensures Disaster(NARROW) == 0.20
  {
    assert BidForReturnPct(-12.0, 0.21, 1, 1.30) == 0.1978;
    assert (0.1978 * 100.0 + 0.5).Floor == 20;
  }

  // ----- What an armed stop is worth -----

  /**
   * The lock's purpose, over any run that has armed: sold at its stop, and half a cent for rounding, the
   * position returns the floor and the peak's return less the giveback, unless the stop is within a cent
   * and a half of the peak.
   */
  lemma LockIsKept(terms: Terms, level: Level, bids: seq<real>)
    requires bids != [] && terms.entry > 0.0 && After(terms, level, bids).armed
    ensures var after := After(terms, level, bids);
      && after.peak.Some? && after.stop.Some?
      && var peakReturn := ReturnOnCostPct(after.peak.value, terms.entry, terms.quantity, terms.commission);
         var tight := peakReturn >= terms.ladder.tightFromPct;
         var giveback := if tight then terms.ladder.tightGivebackPct else terms.ladder.givebackPct;
      && (after.stop.value > after.peak.value - 0.015
          || ReturnOnCostPct(after.stop.value + 0.005, terms.entry, terms.quantity, terms.commission)
             >= MaxR(terms.ladder.floorPct, peakReturn - giveback))
  {
    hide ReturnOnCostPct, BidForReturnPct, Round2, DisasterStopBid;
    var init, bid := bids[..|bids| - 1], bids[|bids| - 1];
    var before := After(terms, level, init);
    var after := After(terms, level, bids);
    AdvanceTakesLevel(terms, before, bid);
    ArmedByPeak(LockAt(terms, before, bid));
    var peakReturn := ReturnOnCostPct(after.peak.value, terms.entry, terms.quantity, terms.commission);
    var locked := LockedReturnFor(peakReturn, terms.ladder).value;
    var desired := BidForReturnPct(locked, terms.entry, terms.quantity, terms.commission);
    Round2Bounds(MinR(desired, after.peak.value - 0.01));
    if desired <= after.peak.value - 0.01 {
      ReturnIsMonotone(desired, after.stop.value + 0.005, terms.entry, terms.quantity, terms.commission);
      ReturnAndBidAreInverse(locked, terms.entry, terms.quantity, terms.commission);
    }
  }

  // ----- The older trail -----

  /**
   * The older trail never lowers the stop, arms for good, and banks breakeven and the minimum lock or stays a
   * cent under the peak.
   */
  lemma TrailKeepsGround(t: Trail)
    ensures var r := RatchetPremiumStop(t);
      && r.peak == MaxR(OrElse(t.peak, t.entry), t.bid)
      && (t.armed ==> r.armed)
      && (t.stop.Some? ==> r.stop.Some? && r.stop.value >= t.stop.value)
      && (r.armed ==> r.stop.Some? && r.stop.value >= MinR(MaxR(t.breakevenBid, t.minLockBid), r.peak - 0.01))
      && (r.raised <==> r.armed && (t.stop.None? || r.stop.value > t.stop.value))
  {
  }

  /** A trail's fixed terms, and the trail at a bid. */
  datatype TrailTerms = TrailTerms(
    entry: real, trailArmPct: real, trailPct: real, breakevenBid: real, minLockBid: real)

  function TrailAt(terms: TrailTerms, level: Level, bid: real): Trail {
    Trail(terms.entry, bid, level.peak, level.stop, level.armed, terms.trailArmPct, terms.trailPct,
          terms.breakevenBid, terms.minLockBid)
  }

  function TrailAfter(terms: TrailTerms, level: Level, bids: seq<real>): Level {
    if bids == [] then level
    else
      var r := RatchetPremiumStop(TrailAt(terms, TrailAfter(terms, level, bids[..|bids| - 1]), bids[|bids| - 1]));
      Level(Some(r.peak), r.stop, r.armed)
  }

  lemma {:induction false} TrailIsStampedOrUnderPeak(terms: TrailTerms, level: Level, bids: seq<real>)
    ensures var after := TrailAfter(terms, level, bids);
      && (level.stop.Some? ==> after.stop.Some? && after.stop.value >= level.stop.value)
      && (after.stop.Some? ==> after.stop == level.stop || after.stop.value < OrElse(after.peak, terms.entry))
  {
    if bids != [] {
      TrailIsStampedOrUnderPeak(terms, level, bids[..|bids| - 1]);
    }
  }

  /**
   * However the bids before it ran, a new high is at the older trail's stop exactly when it is at the stop of
   * the fill.
   */
  lemma {:induction false} TrailNewHighStopsExactly(terms: TrailTerms, level: Level, bids: seq<real>, bid: real)
    requires bid > OrElse(TrailAfter(terms, level, bids).peak, terms.entry)
    ensures var r := RatchetPremiumStop(TrailAt(terms, TrailAfter(terms, level, bids), bid));
      (r.stop.Some? && bid <= r.stop.value) <==> (level.stop.Some? && bid <= level.stop.value)
  {
    hide TrailAfter;
    TrailIsStampedOrUnderPeak(terms, level, bids);
  }

  // ----- What a soft exit looks at -----

  function Mirrored(x: Option<real>): Option<real> {
    if x.Some? then Some(-x.value) else None
  }

  /** A put is a call on the mirrored underlying. */
  lemma SoftExitsAreMirrored(spot: real, bid: Option<real>, stop: Option<real>, source: Source, levels: Levels)
    ensures DecideSoftExit(Some(PUT), spot, bid, stop, source, levels)
         == DecideSoftExit(Some(CALL), -spot, bid, stop, source,
              Levels(levels.targetPremium, Mirrored(levels.stopUnderlying), Mirrored(levels.targetUnderlying)))
  {
  }

  /** The levels with only their stop, or only their targets. */
  function StopOnly(levels: Levels): Levels {
    Levels(None, levels.stopUnderlying, None)
  }

  function TargetsOnly(levels: Levels): Levels {
    Levels(levels.targetPremium, None, levels.targetUnderlying)
  }

  /** Targets never hide a stop: what is reported is what the stops alone report, and only failing that the targets. */
  lemma StopsComeFirst(
    direction: Direction, spot: real, bid: Option<real>, stop: Option<real>, source: Source, levels: Levels)
    ensures var stopped := DecideSoftExit(Some(direction), spot, bid, stop, source, StopOnly(levels));
      DecideSoftExit(Some(direction), spot, bid, stop, source, levels)
      == if stopped.Some? then stopped
         else DecideSoftExit(Some(direction), spot, bid, None, source, TargetsOnly(levels))
  {
  }

  /** What the market shows at one moment, and the trail's say at that moment. */
  datatype Moment = Moment(spot: real, bid: Option<real>, stop: Option<real>, source: Source)

  /** The first moment that exits; the length when none does. */
  function FirstExit(direction: Direction, levels: Levels, moments: seq<Moment>): nat {
    if moments == [] then 0
    else
      var m := moments[0];
      if DecideSoftExit(Some(direction), m.spot, m.bid, m.stop, m.source, levels).Some? then 0
      else 1 + FirstExit(direction, levels, moments[1..])
  }

  function ExitReason(direction: Direction, levels: Levels, m: Moment): Option<Reason> {
    DecideSoftExit(Some(direction), m.spot, m.bid, m.stop, m.source, levels)
  }

  /** Over any market, the exit is credited to a target exactly when the stops alone would have held past it. */
  lemma {:induction false} TargetExitsComeBeforeStops(direction: Direction, levels: Levels, moments: seq<Moment>)
    requires FirstExit(direction, levels, moments) < |moments|
    ensures var k := FirstExit(direction, levels, moments);
      && ExitReason(direction, levels, moments[k]).Some?
      && FirstExit(direction, StopOnly(levels), moments) >= k
      && (ExitReason(direction, levels, moments[k]).value in {PREMIUM_TARGET, UNDERLYING_TARGET}
          <==> FirstExit(direction, StopOnly(levels), moments) > k)
  {
    var m := moments[0];
    StopsComeFirst(direction, m.spot, m.bid, m.stop, m.source, levels);
    if ExitReason(direction, levels, m).None? {
      TargetExitsComeBeforeStops(direction, levels, moments[1..]);
    }
  }

  /** No level of `loose` is reached before the same level of `tight`. */
  predicate Looser(direction: Direction, loose: Levels, tight: Levels) {
    && Farther(loose.targetPremium, tight.targetPremium, true)
    && Farther(loose.stopUnderlying, tight.stopUnderlying, direction == PUT)
    && Farther(loose.targetUnderlying, tight.targetUnderlying, direction == CALL)
  }

  /** A missing level is the farthest. */
  predicate Farther(a: Option<real>, b: Option<real>, above: bool) {
    a.Some? ==> b.Some? && if above then a.value >= b.value else a.value <= b.value
  }

  /** The same stop, or a lower one, at every moment. */
  predicate LowerStops(loose: seq<Moment>, tight: seq<Moment>) {
    && |loose| == |tight|
    && forall i :: 0 <= i < |loose| ==>
      loose[i].spot == tight[i].spot && loose[i].bid == tight[i].bid && Farther(loose[i].stop, tight[i].stop, false)
  }

  /** Over any market, moving levels away or lowering the stop never brings an exit forward. */
  lemma {:induction false} LooserLevelsHoldLonger(
    direction: Direction, loose: Levels, tight: Levels, slow: seq<Moment>, fast: seq<Moment>)
    requires Looser(direction, loose, tight) && LowerStops(slow, fast)
    ensures FirstExit(direction, loose, slow) >= FirstExit(direction, tight, fast)
  {
    if fast != [] {
      assert LowerStops(slow[1..], fast[1..]);
      LooserLevelsHoldLonger(direction, loose, tight, slow[1..], fast[1..]);
      assert LowerStops([slow[0]], [fast[0]]);
    }
  }

  // ----- The clock -----

  /** A trade at +2% or better is spared by the clock at every bid and hour exactly when +2% covers the fees. */
  lemma GoingTradesAreSparedExactly(entry: real, lock: Lock)
    ensures (forall bid: real, c: Clock :: bid >= entry * TIME_STOP_GOING_MULT ==>
      !TimeStopDue(entry, lock.(bid := bid), c))
        <==> Breakeven(entry, lock) <= entry * TIME_STOP_GOING_MULT
  {
    if Breakeven(entry, lock) > entry * TIME_STOP_GOING_MULT {
      var c := Clock(true, Some(0), None, Some(181_000), Some(180));
      assert TimeStopDue(entry, lock.(bid := entry * TIME_STOP_GOING_MULT), c);
    }
  }

  /** A ten-cent contract up ten percent is scratched: its fees are thirteen percent. */
  lemma GoingTradeCanBeScratched()
    ensures var lock := Lock(0.10, 0.11, Some(0.11), None, 1, 1.30, DEFAULT_PROFIT_LOCK);
      lock.bid >= 0.10 * TIME_STOP_GOING_MULT
      && TimeStopDue(0.10, lock, Clock(true, Some(0), Some(0), Some(181_000), None))
  {
    assert Breakeven(0.10, Lock(0.10, 0.11, Some(0.11), None, 1, 1.30, DEFAULT_PROFIT_LOCK)) == 0.113;
  }

  /** Nothing under +2% outlives three clocks, new highs or not; nothing at all is clocked out within one. */
  lemma ClockBounds(entry: real, lock: Lock, c: Clock)
    requires c.useTimeStop && c.openedAt.Some? && c.now.Some?
    ensures var held := c.now.value - c.openedAt.value;
      lock.bid < entry * TIME_STOP_GOING_MULT && held > 3 * LimitMs(c) && held > LimitMs(c) ==>
        TimeStopDue(entry, lock, c)
    ensures c.now.value - c.openedAt.value <= LimitMs(c) ==> !TimeStopDue(entry, lock, c)
  {
  }
}
