/**
 * The paper trainer's ledger. Money is whole cents: a premium of p cents costs 100 * p a
 * contract. Each engine call is one atomic step; `now` is the clock it reads.
 */
module Ledger {
  import opened Market
  import opened Seqs

  const START_CENTS: int := 1_000_000
  const SAME_DIRECTION_BLOCK_MS: int := 60_000
  const STOP_STREAK_LIMIT: nat := 3
  const STOP_STREAK_PAUSE_MS: int := 600_000

  /** Settings the ledger reads. `feeCents` is the commission of one contract, one leg. */
  datatype Settings = Settings(feeCents: nat, slippageCents: nat, cooldownMs: int)

  datatype Position = Position(
    id: nat, direction: Direction, quantity: nat, originalQuantity: nat,
    entryPrice: int, peakBid: int, scaledOut: bool)

  datatype Trade = Trade(
    positionId: nat, direction: Direction, quantity: nat, entryPrice: int, exitPrice: int,
    reason: Reason, grossPnl: int, fees: int, netPnl: int, closedAt: int)

  datatype Kind = BASELINE | TOP_UP

  datatype Mark = Mark(kind: Kind, at: int, amount: int, balanceAfter: int)

  /** What the ENTRY event records. */
  datatype Entry = Entry(direction: Direction, quantity: nat, fill: int, at: int)

  /** What `noteClose` is told. */
  datatype Close = Close(direction: Direction, reason: Reason, netPnl: int, at: int)

  datatype Stop = Stop(direction: Direction, at: int)

  /**
   * The state row and the in-memory book of one user. `entries`, `trades`, `marks` and `closes`
   * are the records written; `baseTrades` is how many trades preceded the baseline mark.
   */
  datatype Account = Account(
    cash: int, equity: int, position: Option<Position>, lastTradeAt: Option<int>,
    lastStop: Option<Stop>, stopStreak: nat, pauseUntil: int,
    entries: seq<Entry>, trades: seq<Trade>, marks: seq<Mark>, closes: seq<Close>, baseTrades: nat)

  function Opened(): Account {
    Account(START_CENTS, START_CENTS, None, None, None, 0, 0, [], [], [], [], 0)
  }

  // ----- Fees and P&L -----

  function CommissionForLeg(s: Settings, quantity: nat): int {
    s.feeCents * quantity
  }

  function CommissionForRoundTrip(s: Settings, quantity: nat): int {
    CommissionForLeg(s, quantity) * 2
  }

  function GrossPnl(entryPrice: int, exitPrice: int, quantity: nat): int {
    (exitPrice - entryPrice) * 100 * quantity
  }

  // ----- What each call does -----

  /** The brakes of `evaluateEntry`: one position, cooldown, stop-streak pause, same-direction block. */
  predicate MayEnter(s: Settings, a: Account, now: int, direction: Direction) {
    && a.position.None?
    && (a.lastTradeAt.Some? ==> now - a.lastTradeAt.value >= s.cooldownMs)
    && now >= a.pauseUntil
    && (a.lastStop.Some? && a.lastStop.value.direction == direction ==>
      now - a.lastStop.value.at >= SAME_DIRECTION_BLOCK_MS)
  }

  function EntryFill(s: Settings, ask: int): int {
    ask + s.slippageCents
  }

  function EntryCost(s: Settings, ask: int, quantity: nat): int {
    EntryFill(s, ask) * 100 * quantity + CommissionForLeg(s, quantity)
  }

  function EnterSpec(s: Settings, a: Account, now: int, direction: Direction, ask: int, bid: int,
      quantity: nat): Account {
    if !MayEnter(s, a, now, direction) || ask <= 0 || quantity < 1 || EntryCost(s, ask, quantity) > a.cash then a
    else
      var cash := a.cash - EntryCost(s, ask, quantity);
      a.(cash := cash, equity := cash,
         position := Some(Position(|a.entries|, direction, quantity, quantity, EntryFill(s, ask), bid, false)),
         lastTradeAt := Some(now),
         entries := a.entries + [Entry(direction, quantity, EntryFill(s, ask), now)])
  }

  function ExitFill(s: Settings, bid: int): int {
    Max(1, bid - s.slippageCents)
  }

  function Proceeds(s: Settings, bid: int, quantity: nat): int {
    ExitFill(s, bid) * 100 * quantity - CommissionForLeg(s, quantity)
  }

  function MakeTrade(s: Settings, p: Position, now: int, quantity: nat, reason: Reason, bid: int): Trade {
    var gross := GrossPnl(p.entryPrice, ExitFill(s, bid), quantity);
    var fees := CommissionForRoundTrip(s, quantity);
    Trade(p.id, p.direction, quantity, p.entryPrice, ExitFill(s, bid), reason, gross, fees, gross - fees, now)
  }

  predicate IsStop(c: Close) {
    c.reason == PREMIUM_STOP && c.netPnl < 0
  }

  /** A losing premium stop blocks its direction and counts toward the pause; any other full close clears the streak. */
  function NoteClose(a: Account, c: Close): Account {
    if IsStop(c) then
      var streak := a.stopStreak + 1;
      a.(closes := a.closes + [c], lastStop := Some(Stop(c.direction, c.at)),
         stopStreak := Min(streak, STOP_STREAK_LIMIT),
         pauseUntil := if streak >= STOP_STREAK_LIMIT then c.at + STOP_STREAK_PAUSE_MS else a.pauseUntil)
    else a.(closes := a.closes + [c], stopStreak := 0)
  }

  function SellSpec(s: Settings, a: Account, now: int, quantity: nat, reason: Reason, bid: int): Account
    requires a.position.Some? && quantity <= a.position.value.quantity
  {
    if quantity < 1 then a
    else
      var p := a.position.value;
      var t := MakeTrade(s, p, now, quantity, reason, bid);
      var cash := a.cash + Proceeds(s, bid, quantity);
      var sold := a.(trades := a.trades + [t], cash := cash, equity := cash, lastTradeAt := Some(now));
      if p.quantity - quantity > 0 then sold.(position := Some(p.(quantity := p.quantity - quantity)))
      else NoteClose(sold.(position := None), Close(p.direction, reason, t.netPnl, now))
  }

  /** What the exit ladder decided for a tick. */
  datatype Decision = Hold | ScaleOut | Exit(reason: Reason)

  function TickSpec(s: Settings, a: Account, now: int, bid: int, decision: Decision): Account {
    if a.position.None? || bid <= 0 then a
    else
      var p := a.position.value;
      var seen := a.(position := Some(p.(peakBid := Max(p.peakBid, bid))));
      match decision
      case Hold => seen
      case ScaleOut =>
        var sold := SellSpec(s, seen, now, p.quantity / 2, SCALE_OUT, bid);
        sold.(position := match sold.position case None => None case Some(q) => Some(q.(scaledOut := true)))
      case Exit(reason) => SellSpec(s, seen, now, p.quantity, reason, bid)
  }

  /** `flattenBook` sells at the best bid seen, or at the entry price when none was. */
  function FlattenSpec(s: Settings, a: Account, now: int, reason: Reason): Account {
    if a.position.None? then a
    else
      var p := a.position.value;
      SellSpec(s, a, now, p.quantity, reason, if p.peakBid > 0 then p.peakBid else p.entryPrice)
  }

  /** The reset endpoint: refused while a position is open. */
  function ResetSpec(a: Account, now: int): Account {
    if a.position.Some? then a
    else
      var amount := START_CENTS - a.equity;
      a.(cash := START_CENTS, equity := START_CENTS,
         marks := if amount == 0 then a.marks else a.marks + [Mark(TOP_UP, now, amount, a.equity + amount)])
  }

  predicate HasBaseline(marks: seq<Mark>) {
    exists i :: 0 <= i < |marks| && marks[i].kind == BASELINE
  }

  /** The first flat reading is the baseline; there is only ever one. */
  function BaselineSpec(a: Account, now: int): Account {
    if HasBaseline(a.marks) || a.position.Some? then a
    else a.(marks := a.marks + [Mark(BASELINE, now, 0, a.equity)], baseTrades := |a.trades|)
  }

  datatype Op =
    | Enter(direction: Direction, ask: int, bid: int, quantity: nat)
    | Tick(bid: int, decision: Decision)
    | Flatten(why: Reason)
    | Reset
    | Baseline

  datatype Call = Call(now: int, op: Op)

  function Step(s: Settings, a: Account, c: Call): Account {
    match c.op
    case Enter(direction, ask, bid, quantity) => EnterSpec(s, a, c.now, direction, ask, bid, quantity)
    case Tick(bid, decision) => TickSpec(s, a, c.now, bid, decision)
    case Flatten(why) => FlattenSpec(s, a, c.now, why)
    case Reset => ResetSpec(a, c.now)
    case Baseline => BaselineSpec(a, c.now)
  }

  function Run(s: Settings, calls: seq<Call>): Account {
    if calls == [] then Opened() else Step(s, Run(s, calls[..|calls| - 1]), calls[|calls| - 1])
  }

  // ----- The object whose fields the engine updates -----

  class Trainer {
    const settings: Settings
    var cash: int
    var equity: int
    var position: Option<Position>
    var lastTradeAt: Option<int>
    var lastStop: Option<Stop>
    var stopStreak: nat
    var pauseUntil: int
    var entries: seq<Entry>
    var trades: seq<Trade>
    var marks: seq<Mark>
    ghost var closes: seq<Close>
    ghost var baseTrades: nat

    ghost function State(): Account
      reads this
    {
      Account(cash, equity, position, lastTradeAt, lastStop, stopStreak, pauseUntil, entries, trades, marks, closes,
        baseTrades)
    }

    constructor (settings: Settings)
      ensures this.settings == settings && State() == Opened()
    {
      this.settings := settings;
      cash, equity := START_CENTS, START_CENTS;
      position, lastTradeAt, lastStop := None, None, None;
      stopStreak, pauseUntil := 0, 0;
      entries, trades, marks := [], [], [];
      closes, baseTrades := [], 0;
    }

    /** The ledger part of `evaluateEntry`; `quantity` is what sizing allowed. */
    method EvaluateEntry(now: int, direction: Direction, ask: int, bid: int, quantity: nat) returns (entered: bool)
      modifies this
      ensures State() == Step(settings, old(State()), Call(now, Enter(direction, ask, bid, quantity)))
      ensures entered <==> |entries| > |old(entries)|
      ensures entered ==> MayEnter(settings, old(State()), now, direction)
    {
      entered := false;
      if position.Some? { return; }
      if lastTradeAt.Some? && now - lastTradeAt.value < settings.cooldownMs { return; }
      if now < pauseUntil { return; }
      if lastStop.Some? && lastStop.value.direction == direction
        && now - lastStop.value.at < SAME_DIRECTION_BLOCK_MS
      {
        return;
      }
      if ask <= 0 || quantity < 1 { return; }
      var fill := ask + settings.slippageCents;
      var entryFee := CommissionForLeg(settings, quantity);
      var cost := fill * 100 * quantity + entryFee;
      if cost > cash { return; }
      position := Some(Position(|entries|, direction, quantity, quantity, fill, bid, false));
      cash := cash - cost;
      equity := cash;
      lastTradeAt := Some(now);
      entries := entries + [Entry(direction, quantity, fill, now)];
      entered := true;
    }

    method SellSlice(now: int, quantity: nat, reason: Reason, bid: int)
      requires position.Some? && quantity <= position.value.quantity
      modifies this
      ensures State() == SellSpec(settings, old(State()), now, quantity, reason, bid)
    {
      if quantity < 1 { return; }
      var p := position.value;
      var fill := Max(1, bid - settings.slippageCents);
      var exitFee := CommissionForLeg(settings, quantity);
      var gross := GrossPnl(p.entryPrice, fill, quantity);
      var fees := CommissionForRoundTrip(settings, quantity);
      trades := trades
        + [Trade(p.id, p.direction, quantity, p.entryPrice, fill, reason, gross, fees, gross - fees, now)];
      cash := cash + fill * 100 * quantity - exitFee;
      var remaining := p.quantity - quantity;
      if remaining > 0 {
        position := Some(p.(quantity := remaining));
      } else {
        position := None;
        CloseNoted(now, p.direction, reason, gross - fees);
      }
      equity := cash;
      lastTradeAt := Some(now);
    }

    method CloseNoted(now: int, direction: Direction, reason: Reason, netPnl: int)
      modifies this
      ensures State() == NoteClose(old(State()), Close(direction, reason, netPnl, now))
    {
      closes := closes + [Close(direction, reason, netPnl, now)];
      if reason == PREMIUM_STOP && netPnl < 0 {
        lastStop := Some(Stop(direction, now));
        stopStreak := stopStreak + 1;
        if stopStreak >= STOP_STREAK_LIMIT {
          pauseUntil := now + STOP_STREAK_PAUSE_MS;
          stopStreak := STOP_STREAK_LIMIT;
        }
        return;
      }
      stopStreak := 0;
    }

    /** `onTicks`, given the ladder's decision for the tick. */
    method OnTick(now: int, bid: int, decision: Decision)
      modifies this
      ensures State() == Step(settings, old(State()), Call(now, Tick(bid, decision)))
    {
      if position.None? || bid <= 0 { return; }
      position := Some(position.value.(peakBid := Max(position.value.peakBid, bid)));
      match decision {
        case Hold =>
        case ScaleOut =>
          SellSlice(now, position.value.quantity / 2, SCALE_OUT, bid);
          if position.Some? {
            position := Some(position.value.(scaledOut := true));
          }
        case Exit(reason) => SellSlice(now, position.value.quantity, reason, bid);
      }
    }

    method FlattenBook(now: int, reason: Reason)
      modifies this
      ensures State() == Step(settings, old(State()), Call(now, Flatten(reason)))
    {
      if position.None? { return; }
      var bid := if position.value.peakBid > 0 then position.value.peakBid else position.value.entryPrice;
      SellSlice(now, position.value.quantity, reason, bid);
    }

    method ResetPaper(now: int) returns (ok: bool)
      modifies this
      ensures ok <==> old(position).None?
      ensures State() == Step(settings, old(State()), Call(now, Reset))
    {
      if position.Some? { return false; }
      var amount := START_CENTS - equity;
      if amount != 0 {
        marks := marks + [Mark(TOP_UP, now, amount, equity + amount)];
      }
      equity, cash := START_CENTS, START_CENTS;
      ok := true;
    }

    method EnsureBaseline(now: int)
      modifies this
      ensures State() == Step(settings, old(State()), Call(now, Baseline))
    {
      if HasBaseline(marks) || position.Some? { return; }
      marks := marks + [Mark(BASELINE, now, 0, equity)];
      baseTrades := |trades|;
    }
  }
}
