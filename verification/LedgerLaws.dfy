/** What the trainer's ledger keeps over every run of entries, ticks, flattens, resets and baselines. */
module LedgerLaws {
  import opened Market
  import opened Seqs
  import opened Ledger

  function Net(): Trade -> int {
    (t: Trade) => t.netPnl
  }

  function Amount(): Mark -> int {
    (m: Mark) => m.amount
  }

  function SoldOf(id: nat): Trade -> int {
    (t: Trade) => if t.positionId == id then t.quantity else 0
  }

  /** Cash still tied up in the open position: its premium and the entry commission on what remains. */
  function CostOf(s: Settings, entryPrice: int, quantity: nat): int {
    entryPrice * 100 * quantity + CommissionForLeg(s, quantity)
  }

  function OpenCost(s: Settings, position: Option<Position>): int {
    match position
    case None => 0
    case Some(p) => CostOf(s, p.entryPrice, p.quantity)
  }

  function Remaining(position: Option<Position>, id: nat): nat {
    match position
    case None => 0
    case Some(p) => if p.id == id then p.quantity else 0
  }

  function BaselineAt(marks: seq<Mark>): (i: nat)
    ensures i <= |marks|
    ensures i < |marks| ==> marks[i].kind == BASELINE
    ensures forall k :: 0 <= k < i ==> marks[k].kind != BASELINE
  {
    if marks == [] || marks[0].kind == BASELINE then 0 else 1 + BaselineAt(marks[1..])
  }

  lemma BaselineFound(marks: seq<Mark>)
    ensures HasBaseline(marks) <==> BaselineAt(marks) < |marks|
  {
    if HasBaseline(marks) {
      var i :| 0 <= i < |marks| && marks[i].kind == BASELINE;
      assert !(i < BaselineAt(marks));
    }
  }

  lemma BaselineStays(marks: seq<Mark>, m: Mark)
    ensures BaselineAt(marks) < |marks| ==> BaselineAt(marks + [m]) == BaselineAt(marks)
    ensures BaselineAt(marks) == |marks| && m.kind == BASELINE ==> BaselineAt(marks + [m]) == |marks|
    ensures BaselineAt(marks) == |marks| && m.kind != BASELINE ==> BaselineAt(marks + [m]) == |marks| + 1
  {
    var i, j := BaselineAt(marks), BaselineAt(marks + [m]);
    assert forall k :: 0 <= k < |marks| ==> (marks + [m])[k] == marks[k];
    assert (marks + [m])[|marks|] == m;
  }

  // ----- The invariant -----

  predicate PositionOk(a: Account) {
    match a.position
    case None => true
    case Some(p) =>
      && 1 <= p.quantity <= p.originalQuantity
      && p.id + 1 == |a.entries|
      && a.entries[p.id].quantity == p.originalQuantity
      && a.entries[p.id].fill == p.entryPrice && a.entries[p.id].direction == p.direction
      && p.entryPrice > 0
  }

  /** Cash plus what is tied up is the starting cash plus everything earned and added. */
  ghost predicate BooksBalance(s: Settings, a: Account) {
    a.cash + OpenCost(s, a.position) == START_CENTS + SumOf(a.trades, Net()) + SumOf(a.marks, Amount())
  }

  /** The same account, counted from the baseline reading. */
  ghost predicate SinceBaseline(s: Settings, a: Account) {
    var b := BaselineAt(a.marks);
    && a.baseTrades <= |a.trades|
    && (b < |a.marks| ==>
         a.cash + OpenCost(s, a.position)
         == a.marks[b].balanceAfter + SumOf(a.trades[a.baseTrades..], Net()) + SumOf(a.marks[b + 1..], Amount()))
  }

  /** The slices of every position, with what is left of it, add up to what was bought. */
  ghost predicate SlicesAddUp(a: Account) {
    && (forall t :: t in a.trades ==> t.positionId < |a.entries|)
    && (forall id :: 0 <= id < |a.entries| ==>
         SumOf(a.trades, SoldOf(id)) + Remaining(a.position, id) == a.entries[id].quantity)
  }

  ghost predicate Inv(s: Settings, a: Account) {
    && a.equity == a.cash
    && PositionOk(a)
    && BooksBalance(s, a)
    && SinceBaseline(s, a)
    && SlicesAddUp(a)
    && (s.feeCents <= 100 ==> a.cash >= 0)
  }

  // ----- Selling -----

  /** A sale turns the slice's tied-up cost into cash plus exactly its recorded net P&L. */
  lemma SaleBalances(s: Settings, p: Position, now: int, quantity: nat, reason: Reason, bid: int)
    requires quantity <= p.quantity
    ensures Proceeds(s, bid, quantity) + CostOf(s, p.entryPrice, p.quantity - quantity)
         == CostOf(s, p.entryPrice, p.quantity) + MakeTrade(s, p, now, quantity, reason, bid).netPnl
  {
    var fill, entry, fee := ExitFill(s, bid), p.entryPrice, s.feeCents;
    assert (fill - entry) * 100 * quantity == fill * 100 * quantity - entry * 100 * quantity;
    assert entry * 100 * (p.quantity - quantity) == entry * 100 * p.quantity - entry * 100 * quantity;
    assert fee * (p.quantity - quantity) == fee * p.quantity - fee * quantity;
  }

  /** Every sale brings cash in, at any bid and size, exactly when the leg fee is at most a dollar. */
  lemma SalesNeverCost(s: Settings)
    ensures (forall bid: int, quantity: nat :: Proceeds(s, bid, quantity) >= 0) <==> s.feeCents <= 100
  {
    if s.feeCents <= 100 {
      forall bid: int, quantity: nat ensures Proceeds(s, bid, quantity) >= 0 {
        ProceedsBound(s, bid, quantity);
      }
    } else {
      assert Proceeds(s, 0, 1) < 0;
    }
  }

  lemma ProceedsBound(s: Settings, bid: int, quantity: nat)
    requires s.feeCents <= 100
    ensures Proceeds(s, bid, quantity) >= 0
  {
    var fill := ExitFill(s, bid);
    assert Proceeds(s, bid, quantity) == (fill * 100 - s.feeCents) * quantity;
    MulPositive(fill * 100 - s.feeCents, quantity);
  }

  lemma MulPositive(x: int, y: int)
    requires x >= 0 && y >= 0
    ensures x * y >= 0
  {
  }

  /** The part of a sale before `noteClose`. */
  function Sold(s: Settings, a: Account, t: Trade, cash: int): Account
    requires a.position.Some? && t.quantity <= a.position.value.quantity
  {
    var p := a.position.value;
    a.(trades := a.trades + [t], cash := cash, equity := cash, lastTradeAt := Some(t.closedAt),
       position := if p.quantity - t.quantity > 0 then Some(p.(quantity := p.quantity - t.quantity)) else None)
  }

  lemma SellUnfolds(s: Settings, a: Account, now: int, quantity: nat, reason: Reason, bid: int)
    requires a.position.Some? && 1 <= quantity <= a.position.value.quantity
    ensures var p := a.position.value;
      var t := MakeTrade(s, p, now, quantity, reason, bid);
      var sold := Sold(s, a, t, a.cash + Proceeds(s, bid, quantity));
      SellSpec(s, a, now, quantity, reason, bid)
      == if p.quantity > quantity then sold else NoteClose(sold, Close(p.direction, reason, t.netPnl, now))
  {
    hide Proceeds, NoteClose, GrossPnl, CommissionForRoundTrip;
  }

  lemma SoldKeeps(s: Settings, a: Account, now: int, quantity: nat, reason: Reason, bid: int)
    requires Inv(s, a) && a.position.Some? && 1 <= quantity <= a.position.value.quantity
    ensures var t := MakeTrade(s, a.position.value, now, quantity, reason, bid);
      Inv(s, Sold(s, a, t, a.cash + Proceeds(s, bid, quantity)))
  {
    var p := a.position.value;
    var t := MakeTrade(s, p, now, quantity, reason, bid);
    var a' := Sold(s, a, t, a.cash + Proceeds(s, bid, quantity));
    SaleBalances(s, p, now, quantity, reason, bid);
    EmptyCostsNothing(s, p.entryPrice);
    if s.feeCents <= 100 {
      ProceedsBound(s, bid, quantity);
    }
    SumOfSnoc(a.trades, t, Net());
    assert a'.trades[a.baseTrades..] == a.trades[a.baseTrades..] + [t];
    SumOfSnoc(a.trades[a.baseTrades..], t, Net());
    SlicesAfterSale(a, t, a');
    hide SlicesAddUp, Proceeds, GrossPnl, CommissionForRoundTrip, SumOf, CostOf, BaselineAt;
  }

  lemma EmptyCostsNothing(s: Settings, entryPrice: int)
    ensures CostOf(s, entryPrice, 0) == 0
  {
  }

  lemma SlicesAfterSale(a: Account, t: Trade, a': Account)
    requires SlicesAddUp(a) && PositionOk(a) && a.position.Some?
    requires t.positionId == a.position.value.id && t.quantity <= a.position.value.quantity
    requires a'.trades == a.trades + [t] && a'.entries == a.entries
    requires a'.position == if a.position.value.quantity > t.quantity
      then Some(a.position.value.(quantity := a.position.value.quantity - t.quantity)) else None
    ensures SlicesAddUp(a')
  {
    forall id | 0 <= id < |a.entries|
      ensures SumOf(a'.trades, SoldOf(id)) + Remaining(a'.position, id) == a.entries[id].quantity
    {
      SumOfSnoc(a.trades, t, SoldOf(id));
    }
  }

  lemma NoteCloseKeeps(s: Settings, a: Account, c: Close)
    requires Inv(s, a)
    ensures Inv(s, NoteClose(a, c))
  {
  }

  lemma SellKeeps(s: Settings, a: Account, now: int, quantity: nat, reason: Reason, bid: int)
    requires Inv(s, a) && a.position.Some? && quantity <= a.position.value.quantity
    ensures Inv(s, SellSpec(s, a, now, quantity, reason, bid))
  {
    hide Inv, NoteClose, Sold;
    if quantity >= 1 {
      SellUnfolds(s, a, now, quantity, reason, bid);
      SoldKeeps(s, a, now, quantity, reason, bid);
      var t := MakeTrade(s, a.position.value, now, quantity, reason, bid);
      NoteCloseKeeps(s, Sold(s, a, t, a.cash + Proceeds(s, bid, quantity)),
                     Close(a.position.value.direction, reason, t.netPnl, now));
    }
  }

  // ----- Every call -----

  lemma EnterKeeps(s: Settings, a: Account, now: int, direction: Direction, ask: int, bid: int, quantity: nat)
    requires Inv(s, a)
    ensures Inv(s, EnterSpec(s, a, now, direction, ask, bid, quantity))
  {
    var a' := EnterSpec(s, a, now, direction, ask, bid, quantity);
    if a' != a {
      assert OpenCost(s, a'.position) == EntryCost(s, ask, quantity);
      SlicesAfterEntry(a, a');
      hide SlicesAddUp, EntryCost, CostOf, SumOf, BaselineAt;
    }
  }

  lemma SlicesAfterEntry(a: Account, a': Account)
    requires SlicesAddUp(a) && a.position.None? && a'.position.Some?
    requires a'.trades == a.trades && |a'.entries| == |a.entries| + 1 && a'.entries[..|a.entries|] == a.entries
    requires a'.position.value.id == |a.entries| && a'.entries[|a.entries|].quantity == a'.position.value.quantity
    ensures SlicesAddUp(a')
  {
    forall id | 0 <= id < |a'.entries|
      ensures SumOf(a'.trades, SoldOf(id)) + Remaining(a'.position, id) == a'.entries[id].quantity
    {
      if id < |a.entries| {
        assert a'.entries[id] == a.entries[id];
      } else {
        NothingSold(a.trades, id);
      }
    }
  }

  lemma {:induction false} NothingSold(trades: seq<Trade>, id: nat)
    requires forall t :: t in trades ==> t.positionId != id
    ensures SumOf(trades, SoldOf(id)) == 0
  {
    if trades != [] {
      NothingSold(trades[1..], id);
    }
  }

  /** Peak and scale flags are not money. */
  lemma FlagsKeep(s: Settings, a: Account, p: Position)
    requires Inv(s, a) && a.position.Some?
    requires p == a.position.value.(peakBid := p.peakBid, scaledOut := p.scaledOut)
    ensures Inv(s, a.(position := Some(p)))
  {
  }

  lemma TickKeeps(s: Settings, a: Account, now: int, bid: int, decision: Decision)
    requires Inv(s, a)
    ensures Inv(s, TickSpec(s, a, now, bid, decision))
  {
    hide Inv, SellSpec;
    if a.position.Some? && bid > 0 {
      var p := a.position.value.(peakBid := Max(a.position.value.peakBid, bid));
      var seen := a.(position := Some(p));
      FlagsKeep(s, a, p);
      match decision {
        case Hold =>
        case ScaleOut =>
          SellKeeps(s, seen, now, p.quantity / 2, SCALE_OUT, bid);
          var sold := SellSpec(s, seen, now, p.quantity / 2, SCALE_OUT, bid);
          if sold.position.Some? {
            FlagsKeep(s, sold, sold.position.value.(scaledOut := true));
          } else {
            assert sold.(position := None) == sold;
          }
        case Exit(reason) => SellKeeps(s, seen, now, p.quantity, reason, bid);
      }
    }
  }

  lemma ResetKeeps(s: Settings, a: Account, now: int)
    requires Inv(s, a)
    ensures Inv(s, ResetSpec(a, now))
  {
    var a' := ResetSpec(a, now);
    var m := Mark(TOP_UP, now, START_CENTS - a.equity, START_CENTS);
    SumOfSnoc(a.marks, m, Amount());
    BaselineStays(a.marks, m);
    var b := BaselineAt(a.marks);
    if b < |a.marks| {
      assert (a.marks + [m])[b + 1..] == a.marks[b + 1..] + [m];
      SumOfSnoc(a.marks[b + 1..], m, Amount());
    }
    hide SumOf, BaselineAt, SlicesAddUp;
    assert a.position.None? ==> SlicesAddUp(a') by { SlicesUnread(a, a'); }
  }

  lemma SlicesUnread(a: Account, a': Account)
    requires SlicesAddUp(a) && a'.trades == a.trades && a'.entries == a.entries && a'.position == a.position
    ensures SlicesAddUp(a')
  {
  }

  lemma BaselineKeeps(s: Settings, a: Account, now: int)
    requires Inv(s, a)
    ensures Inv(s, BaselineSpec(a, now))
  {
    var a' := BaselineSpec(a, now);
    var m := Mark(BASELINE, now, 0, a.equity);
    SumOfSnoc(a.marks, m, Amount());
    BaselineFound(a.marks);
    BaselineStays(a.marks, m);
    assert (a.marks + [m])[|a.marks| + 1..] == [] && a.trades[|a.trades|..] == [];
    SlicesUnread(a, a');
    hide SlicesAddUp, HasBaseline, BaselineAt;
  }

  lemma StepKeeps(s: Settings, a: Account, c: Call)
    requires Inv(s, a)
    ensures Inv(s, Step(s, a, c))
  {
    hide Inv;
    match c.op {
      case Enter(direction, ask, bid, quantity) => EnterKeeps(s, a, c.now, direction, ask, bid, quantity);
      case Tick(bid, decision) => TickKeeps(s, a, c.now, bid, decision);
      case Flatten(why) =>
        if a.position.Some? {
          var p := a.position.value;
          SellKeeps(s, a, c.now, p.quantity, why, if p.peakBid > 0 then p.peakBid else p.entryPrice);
        }
      case Reset => ResetKeeps(s, a, c.now);
      case Baseline => BaselineKeeps(s, a, c.now);
    }
  }

  lemma {:induction false} RunKeeps(s: Settings, calls: seq<Call>)
    ensures Inv(s, Run(s, calls))
  {
    if calls != [] {
      RunKeeps(s, calls[..|calls| - 1]);
      StepKeeps(s, Run(s, calls[..|calls| - 1]), calls[|calls| - 1]);
    }
  }

  // ----- What a reader takes away -----

  /** No cent is made or lost, over any run; and equity is always the settled cash. */
  lemma CashIsConserved(s: Settings, calls: seq<Call>)
    ensures var a := Run(s, calls);
      && a.equity == a.cash
      && a.cash + OpenCost(s, a.position) == START_CENTS + SumOf(a.trades, Net()) + SumOf(a.marks, Amount())
  {
    RunKeeps(s, calls);
    hide Run;
  }

  lemma CashNeverNegative(s: Settings, calls: seq<Call>)
    requires s.feeCents <= 100
    ensures Run(s, calls).cash >= 0
  {
    RunKeeps(s, calls);
    hide Run;
  }

  /** Whatever was bought is sold in slices that sum to it, the last one when the position closes. */
  lemma SlicesSumToOriginal(s: Settings, calls: seq<Call>, id: nat)
    requires id < |Run(s, calls).entries|
    ensures var a := Run(s, calls);
      SumOf(a.trades, SoldOf(id)) + Remaining(a.position, id) == a.entries[id].quantity
  {
    RunKeeps(s, calls);
    hide Run;
  }
}
