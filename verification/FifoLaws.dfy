/** What FIFO matching conserves, in which order it works, and how it keeps keys apart. */
module FifoLaws {
  import opened Fifo
  import opened Multiples
  import opened Seqs

  // ----- Measures over fills, lots and matches -----

  function Traded(id: int): Fill -> int {
    (f: Fill) => if f.id == id then Abs(f.quantity) else 0
  }

  function Resting(id: int): Lot -> int {
    (l: Lot) => if l.fillId == id then l.remaining else 0
  }

  function OpenedBy(id: int): Match -> int {
    (m: Match) => if m.openFillId == id then m.quantity else 0
  }

  function ClosedBy(id: int): Match -> int {
    (m: Match) => if m.closeFillId == id then m.quantity else 0
  }

  function Signed(): Fill -> int {
    (f: Fill) => SignedQty(f)
  }

  function LotSigned(lot: Lot): int {
    if lot.direction == LONG then lot.remaining else -lot.remaining
  }

  function Position(): Lot -> int {
    (l: Lot) => LotSigned(l)
  }

  /** Cash a fill pays (negative: receives) per unit of the multiplier. */
  function Paid(): Fill -> int {
    (f: Fill) => Times(SignedQty(f), f.price)
  }

  function EntryCost(): Lot -> int {
    (l: Lot) => Times(LotSigned(l), l.price)
  }

  function Pnl(): Match -> int {
    (m: Match) => m.realizedPnl
  }

  /** The price move a match banked, before the contract multiplier. */
  function PointsOf(m: Match): int {
    Times(if m.direction == LONG then m.quantity else -m.quantity, m.closePrice - m.openPrice)
  }

  function Points(): Match -> int {
    (m: Match) => PointsOf(m)
  }

  /** Every open lot is positive and they all face the same way. */
  predicate Clean(lots: seq<Lot>) {
    && (forall l :: l in lots ==> l.remaining > 0)
    && (forall l, m :: l in lots && m in lots ==> l.direction == m.direction)
  }

  // ----- One fill against the queue -----

  lemma RestSum(lots: seq<Lot>, remaining: int, f: Lot -> int)
    requires lots != [] && Clean(lots)
    requires forall l: Lot :: l.remaining == 0 ==> f(l) == 0
    ensures Clean(Rest(lots, remaining))
    ensures SumOf(Rest(lots, remaining), f) - SumOf(lots, f)
         == f(lots[0].(remaining := lots[0].remaining - Min(Abs(remaining), lots[0].remaining))) - f(lots[0])
  {
    var rest := Rest(lots, remaining);
    assert forall l :: l in lots[1..] ==> l in lots;
    if lots[0].remaining > Abs(remaining) {
      assert rest[1..] == lots[1..];
    }
  }

  lemma {:induction false} AbsorbSettles(lots: seq<Lot>, remaining: int, fill: Fill, tag: Tag)
    requires Clean(lots)
    ensures var a := Absorb(lots, remaining, fill, tag);
      && Clean(a.lots)
      && (a.remaining == 0 || a.lots == [] || SameDirection(a.lots[0], a.remaining))
      && (if remaining >= 0 then 0 <= a.remaining <= remaining else remaining <= a.remaining <= 0)
    decreases |lots|, Abs(remaining)
  {
    if remaining != 0 && lots != [] && !SameDirection(lots[0], remaining) {
      RestSum(lots, remaining, Position());
      AbsorbSettles(Rest(lots, remaining), LeftOver(lots, remaining), fill, tag);
    }
  }

  lemma {:induction false} AbsorbConserves(lots: seq<Lot>, remaining: int, fill: Fill, tag: Tag, id: int)
    requires Clean(lots)
    ensures var a := Absorb(lots, remaining, fill, tag);
      && SumOf(a.matches, OpenedBy(id)) + SumOf(a.lots, Resting(id)) == SumOf(lots, Resting(id))
      && SumOf(a.matches, ClosedBy(id)) == (if fill.id == id then Abs(remaining) - Abs(a.remaining) else 0)
      && SumOf(a.lots, Position()) + a.remaining == SumOf(lots, Position()) + remaining
    decreases |lots|, Abs(remaining)
  {
    if remaining != 0 && lots != [] && !SameDirection(lots[0], remaining) {
      var rest, left := Rest(lots, remaining), LeftOver(lots, remaining);
      var m := HeadMatch(lots, remaining, fill, tag);
      RestSum(lots, remaining, Resting(id));
      RestSum(lots, remaining, Position());
      AbsorbUnfold(lots, remaining, fill, tag);
      AbsorbConserves(rest, left, fill, tag, id);
      hide Absorb, SumOf;
      SumOfCons(m, Absorb(rest, left, fill, tag).matches, OpenedBy(id));
      SumOfCons(m, Absorb(rest, left, fill, tag).matches, ClosedBy(id));
    } else {
      AbsorbStops(lots, remaining, fill, tag);
    }
  }

  lemma {:induction false} AbsorbPoints(lots: seq<Lot>, remaining: int, fill: Fill, tag: Tag)
    requires Clean(lots)
    ensures SumOf(Absorb(lots, remaining, fill, tag).matches, Points())
         == Times(Absorb(lots, remaining, fill, tag).remaining - remaining, fill.price)
            + SumOf(Absorb(lots, remaining, fill, tag).lots, EntryCost()) - SumOf(lots, EntryCost())
    ensures SumOf(Absorb(lots, remaining, fill, tag).matches, Pnl())
         == Times(tag.mult, SumOf(Absorb(lots, remaining, fill, tag).matches, Points()))
    decreases |lots|, Abs(remaining)
  {
    hide *;
    if remaining == 0 || lots == [] || SameDirection(lots[0], remaining) {
      AbsorbStops(lots, remaining, fill, tag);
      NoMatchNoPoints(fill.price);
      NoMatchNoPoints(tag.mult);
    } else {
      var rest, left := Rest(lots, remaining), LeftOver(lots, remaining);
      RestShrinks(lots, remaining);
      AbsorbUnfold(lots, remaining, fill, tag);
      AbsorbPoints(rest, left, fill, tag);
      var m, more := HeadMatch(lots, remaining, fill, tag), Absorb(rest, left, fill, tag);
      AfterPoints(m, more);
      RestCost(lots, remaining, fill, tag);
      Combine(more.remaining, left, remaining, fill.price);
      HeadPnl(lots, remaining, fill, tag);
      Distribute(tag.mult, PointsOf(m), 0 - SumOf(more.matches, Points()));
      Negate(tag.mult, SumOf(more.matches, Points()));
    }
  }

  lemma NoMatchNoPoints(x: int)
    ensures SumOf([], Points()) == 0 && SumOf([], Pnl()) == 0 && Times(0, x) == 0 && Times(x, 0) == 0
  {
  }

  lemma Negate(x: int, y: int)
    ensures Times(x, 0 - y) == 0 - Times(x, y)
  {
  }

  lemma RestShrinks(lots: seq<Lot>, remaining: int)
    requires lots != [] && Clean(lots) && remaining != 0
    ensures Clean(Rest(lots, remaining))
    ensures |Rest(lots, remaining)| < |lots|
         || (|Rest(lots, remaining)| == |lots| && Abs(LeftOver(lots, remaining)) < Abs(remaining))
  {
    RestSum(lots, remaining, Position());
  }

  lemma AfterPoints(m: Match, a: Absorbed)
    ensures SumOf(After([m], a).matches, Points()) == PointsOf(m) + SumOf(a.matches, Points())
    ensures SumOf(After([m], a).matches, Pnl()) == m.realizedPnl + SumOf(a.matches, Pnl())
    ensures After([m], a).lots == a.lots && After([m], a).remaining == a.remaining
  {
    hide SumOf, PointsOf;
    SumOfCons(m, a.matches, Points());
    SumOfCons(m, a.matches, Pnl());
  }

  /** Signed units a fill takes off the queue's head. */
  function Taken(lots: seq<Lot>, remaining: int): int
    requires lots != []
  {
    var closeQty := Min(Abs(remaining), lots[0].remaining);
    if lots[0].direction == LONG then closeQty else -closeQty
  }

  lemma MatchPoints(lots: seq<Lot>, remaining: int, fill: Fill, tag: Tag)
    requires lots != []
    ensures PointsOf(HeadMatch(lots, remaining, fill, tag))
         == Times(Taken(lots, remaining), fill.price - lots[0].price)
  {
  }

  /** What the queue's cost loses when its head is shortened or spent. */
  lemma RestEntryCost(lots: seq<Lot>, remaining: int)
    requires lots != [] && Clean(lots) && remaining != 0
    ensures SumOf(Rest(lots, remaining), EntryCost()) - SumOf(lots, EntryCost())
         == 0 - Times(Taken(lots, remaining), lots[0].price)
  {
    hide Times, EntryCost, SumOf, Clean;
    var closeQty := Min(Abs(remaining), lots[0].remaining);
    var short := lots[0].(remaining := lots[0].remaining - closeQty);
    HeadIsPositive(lots);
    ShortenedCost(lots[0], closeQty, Taken(lots, remaining));
    SumOfCons(lots[0], lots[1..], EntryCost());
    SumOfCons(short, lots[1..], EntryCost());
    assert lots == [lots[0]] + lots[1..];
    hide Taken;
  }

  lemma HeadIsPositive(lots: seq<Lot>)
    requires lots != [] && Clean(lots)
    ensures lots[0].remaining > 0
  {
    assert lots[0] in lots;
  }

  lemma ShortenedCost(lot: Lot, closeQty: int, taken: int)
    requires taken == if lot.direction == LONG then closeQty else -closeQty
    ensures EntryCost()(lot.(remaining := lot.remaining - closeQty)) == EntryCost()(lot) - Times(taken, lot.price)
    ensures lot.remaining == closeQty ==> EntryCost()(lot) == Times(taken, lot.price)
  {
    Split(LotSigned(lot), taken, lot.price);
  }

  /** One match moves the tied-up cost by what it pays the fill's price for, less what it banks. */
  lemma RestCost(lots: seq<Lot>, remaining: int, fill: Fill, tag: Tag)
    requires lots != [] && Clean(lots) && remaining != 0 && !SameDirection(lots[0], remaining)
    ensures PointsOf(HeadMatch(lots, remaining, fill, tag))
         == Times(LeftOver(lots, remaining) - remaining, fill.price)
            + SumOf(Rest(lots, remaining), EntryCost()) - SumOf(lots, EntryCost())
  {
    assert LeftOver(lots, remaining) - remaining == Taken(lots, remaining);
    hide *;
    MatchPoints(lots, remaining, fill, tag);
    RestEntryCost(lots, remaining);
    Distribute(Taken(lots, remaining), fill.price, lots[0].price);
  }

  lemma Combine(end: int, mid: int, start: int, price: int)
    ensures Times(end - mid, price) + Times(mid - start, price) == Times(end - start, price)
  {
  }

  lemma Split(x: int, q: int, price: int)
    ensures Times(x - q, price) == Times(x, price) - Times(q, price)
  {
  }

  lemma Distribute(q: int, x: int, y: int)
    ensures Times(q, x - y) == Times(q, x) - Times(q, y)
  {
  }

  lemma HeadPnl(lots: seq<Lot>, remaining: int, fill: Fill, tag: Tag)
    requires lots != []
    ensures HeadMatch(lots, remaining, fill, tag).realizedPnl
         == Times(tag.mult, PointsOf(HeadMatch(lots, remaining, fill, tag)))
  {
    var closeQty := Min(Abs(remaining), lots[0].remaining);
    assert (lots[0].price - fill.price) * closeQty == -closeQty * (fill.price - lots[0].price);
  }

  lemma {:induction false} AbsorbCounts(lots: seq<Lot>, remaining: int, fill: Fill, tag: Tag)
    ensures var a := Absorb(lots, remaining, fill, tag);
      && |a.matches| + |a.lots| <= |lots| + 1
      && (a.lots == [] || a.remaining != 0 ==> |a.matches| + |a.lots| == |lots|)
    decreases |lots|, Abs(remaining)
  {
    if remaining != 0 && lots != [] && !SameDirection(lots[0], remaining) {
      AbsorbCounts(Rest(lots, remaining), LeftOver(lots, remaining), fill, tag);
    }
  }

  // ----- A whole key: conservation -----

  lemma {:induction false} OpenLotsAreNetPosition(fills: seq<Fill>, tag: Tag)
    ensures var b := RunKey(fills, tag);
      Clean(b.lots) && SumOf(b.lots, Position()) == SumOf(fills, Signed())
  {
    if fills != [] {
      var init, fill := fills[..|fills| - 1], fills[|fills| - 1];
      assert fills == init + [fill];
      OpenLotsAreNetPosition(init, tag);
      ApplyPosition(RunKey(init, tag), fill, tag);
      SumOfSnoc(init, fill, Signed());
    }
  }

  lemma ApplyPosition(b: Book, fill: Fill, tag: Tag)
    requires Clean(b.lots)
    ensures Clean(Apply(b, fill, tag).lots)
    ensures SumOf(Apply(b, fill, tag).lots, Position()) == SumOf(b.lots, Position()) + SignedQty(fill)
  {
    hide Absorb, SumOf, SignedQty;
    var a := Absorb(b.lots, SignedQty(fill), fill, tag);
    AbsorbSettles(b.lots, SignedQty(fill), fill, tag);
    AbsorbConserves(b.lots, SignedQty(fill), fill, tag, fill.id);
    SumOfSnoc(a.lots, OpenLot(fill, a.remaining), Position());
    if a.lots != [] {
      assert a.lots[0] in a.lots;
    }
  }

  /** Every unit of every fill is accounted for once: as closer, as opener, or still resting. */
  lemma {:induction false} FillsAreConserved(fills: seq<Fill>, tag: Tag, id: int)
    ensures var b := RunKey(fills, tag);
      SumOf(fills, Traded(id))
      == SumOf(b.matches, ClosedBy(id)) + SumOf(b.matches, OpenedBy(id)) + SumOf(b.lots, Resting(id))
  {
    if fills != [] {
      var init, fill := fills[..|fills| - 1], fills[|fills| - 1];
      assert fills == init + [fill];
      FillsAreConserved(init, tag, id);
      OpenLotsAreNetPosition(init, tag);
      var b := RunKey(init, tag);
      var a := Absorb(b.lots, SignedQty(fill), fill, tag);
      AbsorbConserves(b.lots, SignedQty(fill), fill, tag, id);
      AbsorbSettles(b.lots, SignedQty(fill), fill, tag);
      SumOfSnoc(init, fill, Traded(id));
      SumOfSnoc(a.lots, OpenLot(fill, a.remaining), Resting(id));
      SumOfConcat(b.matches, a.matches, ClosedBy(id));
      SumOfConcat(b.matches, a.matches, OpenedBy(id));
    }
  }

  lemma {:induction false} RunCash(fills: seq<Fill>, tag: Tag)
    ensures var b := RunKey(fills, tag);
      && SumOf(b.matches, Points()) == SumOf(b.lots, EntryCost()) - SumOf(fills, Paid())
      && SumOf(b.matches, Pnl()) == Times(tag.mult, SumOf(b.matches, Points()))
  {
    if fills != [] {
      var init, fill := fills[..|fills| - 1], fills[|fills| - 1];
      assert fills == init + [fill];
      RunCash(init, tag);
      OpenLotsAreNetPosition(init, tag);
      ApplyCash(RunKey(init, tag), fill, tag);
      SumOfSnoc(init, fill, Paid());
    }
  }

  /** Realized P&L is the cash the fills brought in plus the entry cost still tied up. */
  lemma CashIdentity(fills: seq<Fill>, tag: Tag)
    ensures var b := RunKey(fills, tag);
      SumOf(b.matches, Pnl()) == tag.mult * (SumOf(b.lots, EntryCost()) - SumOf(fills, Paid()))
  {
    RunCash(fills, tag);
    hide RunKey, SumOf;
  }

  lemma ApplyCash(b: Book, fill: Fill, tag: Tag)
    requires Clean(b.lots)
    ensures var b' := Apply(b, fill, tag);
      && SumOf(b'.matches, Points()) - SumOf(b.matches, Points())
         == SumOf(b'.lots, EntryCost()) - SumOf(b.lots, EntryCost()) - Times(SignedQty(fill), fill.price)
      && SumOf(b'.matches, Pnl()) - SumOf(b.matches, Pnl())
         == Times(tag.mult, SumOf(b'.matches, Points())) - Times(tag.mult, SumOf(b.matches, Points()))
  {
    hide *;
    var a, b' := Absorb(b.lots, SignedQty(fill), fill, tag), Apply(b, fill, tag);
    ApplyParts(b, fill, tag);
    AbsorbPoints(b.lots, SignedQty(fill), fill, tag);
    SumOfConcat(b.matches, a.matches, Points());
    SumOfConcat(b.matches, a.matches, Pnl());
    Distribute(tag.mult, SumOf(b'.matches, Points()), SumOf(b.matches, Points()));
    Split(a.remaining, SignedQty(fill), fill.price);
  }

  lemma ApplyParts(b: Book, fill: Fill, tag: Tag)
    ensures var a := Absorb(b.lots, SignedQty(fill), fill, tag);
      && Apply(b, fill, tag).matches == b.matches + a.matches
      && SumOf(Apply(b, fill, tag).lots, EntryCost()) == SumOf(a.lots, EntryCost()) + Times(a.remaining, fill.price)
  {
    var a := Absorb(b.lots, SignedQty(fill), fill, tag);
    hide Absorb, SumOf, SignedQty;
    NothingLeft(fill, a.remaining);
    SumOfSnoc(a.lots, OpenLot(fill, a.remaining), EntryCost());
  }

  lemma NothingLeft(fill: Fill, left: int)
    ensures left == 0 ==> Times(left, fill.price) == 0
    ensures EntryCost()(OpenLot(fill, left)) == Times(left, fill.price)
  {
  }

  /** When flat, the total does not depend on how the fills were paired, or even on their order. */
  lemma FlatPnlIgnoresPairing(fills: seq<Fill>, tag: Tag)
    requires SumOf(fills, Signed()) == 0
    ensures RunKey(fills, tag).lots == []
    ensures SumOf(RunKey(fills, tag).matches, Pnl()) == tag.mult * (0 - SumOf(fills, Paid()))
  {
    OpenLotsAreNetPosition(fills, tag);
    if RunKey(fills, tag).lots != [] {
      CleanIsNotFlat(RunKey(fills, tag).lots);
    }
    CashIdentity(fills, tag);
  }

  lemma {:induction false} CleanIsNotFlat(lots: seq<Lot>)
    requires Clean(lots) && lots != []
    ensures if lots[0].direction == LONG then SumOf(lots, Position()) > 0 else SumOf(lots, Position()) < 0
  {
    if |lots| > 1 {
      assert forall l :: l in lots[1..] ==> l in lots;
      assert lots[1].direction == lots[0].direction;
      CleanIsNotFlat(lots[1..]);
    }
  }

  /** n fills of one key give at most n - 1 matches, and the open lots count against them. */
  lemma {:induction false} MatchesAreBounded(fills: seq<Fill>, tag: Tag)
    requires fills != []
    ensures var b := RunKey(fills, tag);
      |b.matches| + Max(|b.lots|, 1) <= |fills|
  {
    var init, fill := fills[..|fills| - 1], fills[|fills| - 1];
    if init != [] {
      MatchesAreBounded(init, tag);
    }
    var b := RunKey(init, tag);
    AbsorbCounts(b.lots, SignedQty(fill), fill, tag);
  }

  // ----- A whole key: order -----

  function OpenerKeys(matches: seq<Match>): (r: seq<(int, int)>) {
    seq(|matches|, i requires 0 <= i < |matches| => (matches[i].openedAt, matches[i].openFillId))
  }

  function LotKeys(lots: seq<Lot>): (r: seq<(int, int)>) {
    seq(|lots|, i requires 0 <= i < |lots| => (lots[i].openedAt, lots[i].fillId))
  }

  predicate KeyLe(a: (int, int), b: (int, int)) {
    a.0 < b.0 || (a.0 == b.0 && a.1 <= b.1)
  }

  predicate Ordered(keys: seq<(int, int)>) {
    forall i, j :: 0 <= i < j < |keys| ==> KeyLe(keys[i], keys[j])
  }

  /** The openers used, then the lots left, are the queue read front to back. */
  function Trail(matches: seq<Match>, lots: seq<Lot>): seq<(int, int)> {
    OpenerKeys(matches) + LotKeys(lots)
  }

  lemma {:induction false} AbsorbOrder(lots: seq<Lot>, remaining: int, fill: Fill, tag: Tag)
    requires Ordered(LotKeys(lots))
    ensures var a := Absorb(lots, remaining, fill, tag);
      && Ordered(Trail(a.matches, a.lots))
      && (forall k :: k in Trail(a.matches, a.lots) ==> k in LotKeys(lots))
      && (forall m :: m in a.matches ==> m.closedAt == fill.time)
    decreases |lots|, Abs(remaining)
  {
    hide Absorb, CloseAgainst;
    if remaining == 0 || lots == [] || SameDirection(lots[0], remaining) {
      AbsorbStops(lots, remaining, fill, tag);
      assert OpenerKeys([]) + LotKeys(lots) == LotKeys(lots);
    } else {
      var rest, left := Rest(lots, remaining), LeftOver(lots, remaining);
      RestKeys(lots, remaining);
      AbsorbOrder(rest, left, fill, tag);
      AbsorbUnfold(lots, remaining, fill, tag);
      var m, more := HeadMatch(lots, remaining, fill, tag), Absorb(rest, left, fill, tag);
      HeadKeys(lots, remaining, fill, tag);
      hide *;
      TrailAfter(m, more);
      OrderedCons((m.openedAt, m.openFillId), Trail(more.matches, more.lots), LotKeys(rest));
    }
  }

  lemma HeadKeys(lots: seq<Lot>, remaining: int, fill: Fill, tag: Tag)
    requires lots != []
    ensures var m := HeadMatch(lots, remaining, fill, tag);
      m.closedAt == fill.time && LotKeys(lots)[0] == (m.openedAt, m.openFillId)
  {
  }

  lemma TrailAfter(m: Match, a: Absorbed)
    ensures Trail(After([m], a).matches, After([m], a).lots) == [(m.openedAt, m.openFillId)] + Trail(a.matches, a.lots)
    ensures forall x :: x in After([m], a).matches ==> x == m || x in a.matches
  {
    assert OpenerKeys([m] + a.matches) == [(m.openedAt, m.openFillId)] + OpenerKeys(a.matches);
  }

  lemma RestKeys(lots: seq<Lot>, remaining: int)
    requires lots != [] && Ordered(LotKeys(lots))
    ensures var keys := LotKeys(Rest(lots, remaining));
      Ordered(keys) && forall k :: k in keys ==> k in LotKeys(lots) && KeyLe(LotKeys(lots)[0], k)
  {
    var rest := Rest(lots, remaining);
    assert LotKeys(lots[1..]) == LotKeys(lots)[1..];
    assert rest != lots[1..] ==> LotKeys(rest) == LotKeys(lots);
  }

  lemma OrderedCons(head: (int, int), trail: seq<(int, int)>, queue: seq<(int, int)>)
    requires Ordered(trail)
    requires forall k :: k in trail ==> k in queue
    requires forall k :: k in queue ==> KeyLe(head, k)
    ensures Ordered([head] + trail)
  {
    hide KeyLe;
    forall j | 0 <= j < |trail| ensures KeyLe(head, trail[j]) {
      assert trail[j] in trail;
    }
  }

  predicate SortedFills(fills: seq<Fill>) {
    forall i, j :: 0 <= i < j < |fills| ==> FillLe()(fills[i], fills[j])
  }

  ghost predicate FromFill(key: (int, int), fills: seq<Fill>) {
    exists f :: f in fills && key == (f.time, f.id)
  }

  /** A lot is touched only once every older lot is spent; nothing closes before it opened. */
  lemma {:induction false} OldestLotFirst(fills: seq<Fill>, tag: Tag)
    requires SortedFills(fills)
    ensures var b := RunKey(fills, tag);
      && Ordered(Trail(b.matches, b.lots))
      && (forall k :: k in Trail(b.matches, b.lots) ==> FromFill(k, fills))
      && (forall m :: m in b.matches ==> m.openedAt <= m.closedAt)
  {
    if fills != [] {
      var init, fill := fills[..|fills| - 1], fills[|fills| - 1];
      assert fills == init + [fill];
      OldestLotFirst(init, tag);
      ApplyOrder(init, RunKey(init, tag), fill, tag);
    }
  }

  lemma ApplyOrder(init: seq<Fill>, b: Book, fill: Fill, tag: Tag)
    requires SortedFills(init + [fill])
    requires Ordered(Trail(b.matches, b.lots))
    requires forall k :: k in Trail(b.matches, b.lots) ==> FromFill(k, init)
    requires forall m :: m in b.matches ==> m.openedAt <= m.closedAt
    ensures var b' := Apply(b, fill, tag);
      && Ordered(Trail(b'.matches, b'.lots))
      && (forall k :: k in Trail(b'.matches, b'.lots) ==> FromFill(k, init + [fill]))
      && (forall m :: m in b'.matches ==> m.openedAt <= m.closedAt)
  {
    var a := Absorb(b.lots, SignedQty(fill), fill, tag);
    var trail := Trail(a.matches, a.lots);
    assert LotKeys(b.lots) == Trail(b.matches, b.lots)[|b.matches|..];
    AbsorbOrder(b.lots, SignedQty(fill), fill, tag);
    OrderStep(init, fill, OpenerKeys(b.matches), LotKeys(b.lots), trail);
    ApplyTrail(b, fill, tag);
    hide Absorb, SignedQty, OpenerKeys, LotKeys;
    assert forall k :: k in trail ==> k in OpenerKeys(b.matches) + trail;
    assert FromFill((fill.time, fill.id), init + [fill]) by {
      assert (init + [fill])[|init|] == fill;
    }
    TrailTimes(a, fill);
  }

  /** The whole trail after a fill: the openers used before, the queue's trail, then the fill if it rests. */
  lemma ApplyTrail(b: Book, fill: Fill, tag: Tag)
    ensures var a := Absorb(b.lots, SignedQty(fill), fill, tag);
      Trail(Apply(b, fill, tag).matches, Apply(b, fill, tag).lots)
      == (OpenerKeys(b.matches) + Trail(a.matches, a.lots)) + (if a.remaining != 0 then [(fill.time, fill.id)] else [])
  {
    var a := Absorb(b.lots, SignedQty(fill), fill, tag);
    hide Absorb, SignedQty;
    assert OpenerKeys(b.matches + a.matches) == OpenerKeys(b.matches) + OpenerKeys(a.matches);
    assert LotKeys(a.lots + [OpenLot(fill, a.remaining)]) == LotKeys(a.lots) + [(fill.time, fill.id)];
  }

  lemma TrailTimes(a: Absorbed, fill: Fill)
    requires forall m :: m in a.matches ==> m.closedAt == fill.time
    requires forall k :: k in Trail(a.matches, a.lots) ==> k.0 <= fill.time
    ensures forall m :: m in a.matches ==> m.openedAt <= m.closedAt
  {
    forall m | m in a.matches ensures m.openedAt <= m.closedAt {
      var i :| 0 <= i < |a.matches| && a.matches[i] == m;
      assert Trail(a.matches, a.lots)[i] == (m.openedAt, m.openFillId);
    }
  }

  lemma OrderStep(init: seq<Fill>, fill: Fill, used: seq<(int, int)>, queue: seq<(int, int)>, trail: seq<(int, int)>)
    requires SortedFills(init + [fill])
    requires Ordered(used + queue)
    requires forall k :: k in used + queue ==> FromFill(k, init)
    requires Ordered(trail) && forall k :: k in trail ==> k in queue
    ensures Ordered(used + trail)
    ensures forall k :: k in used + trail ==> FromFill(k, init + [fill]) && KeyLe(k, (fill.time, fill.id))
  {
    forall k | k in used + trail
      ensures k in used + queue && FromFill(k, init + [fill]) && KeyLe(k, (fill.time, fill.id))
    {
      assert k in used + queue;
      var f :| f in init && k == (f.time, f.id);
      var i :| 0 <= i < |init| && init[i] == f;
      assert (init + [fill])[i] == f && (init + [fill])[|init|] == fill;
    }
    forall i, j | 0 <= i < |used| && 0 <= j < |trail| ensures KeyLe(used[i], trail[j]) {
      assert trail[j] in queue;
      var q :| 0 <= q < |queue| && queue[q] == trail[j];
      assert (used + queue)[i] == used[i] && (used + queue)[|used| + q] == trail[j];
    }
    forall i, j | 0 <= i < j < |used| ensures KeyLe(used[i], used[j]) {
      assert (used + queue)[i] == used[i] && (used + queue)[j] == used[j];
    }
  }
}
