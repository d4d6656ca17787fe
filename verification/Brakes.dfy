/** The re-entry brakes: what the book remembers of its stops, and when an entry can follow one. */
module Brakes {
  import opened Market
  import opened Seqs
  import opened Ledger

  /** Length of the trailing run of full closes that were losing premium stops. */
  function Streak(closes: seq<Close>): nat {
    if closes == [] || !IsStop(closes[|closes| - 1]) then 0 else 1 + Streak(closes[..|closes| - 1])
  }

  function LatestStop(closes: seq<Close>): Option<Stop> {
    if closes == [] then None
    else
      var last := closes[|closes| - 1];
      if IsStop(last) then Some(Stop(last.direction, last.at)) else LatestStop(closes[..|closes| - 1])
  }

  /** End of the pause set by the latest close that completed or extended a run of three. */
  function PauseEnd(closes: seq<Close>): int {
    if closes == [] then 0
    else if Streak(closes) >= STOP_STREAK_LIMIT then closes[|closes| - 1].at + STOP_STREAK_PAUSE_MS
    else PauseEnd(closes[..|closes| - 1])
  }

  predicate Remembers(a: Account) {
    && a.stopStreak == Min(Streak(a.closes), STOP_STREAK_LIMIT)
    && a.lastStop == LatestStop(a.closes)
    && a.pauseUntil == PauseEnd(a.closes)
  }

  lemma NoteCloseRemembers(a: Account, c: Close)
    requires Remembers(a)
    ensures Remembers(NoteClose(a, c))
  {
    assert (a.closes + [c])[..|a.closes|] == a.closes;
  }

  /** Nothing noted, or one close at `now`. */
  predicate Notes(before: seq<Close>, after: seq<Close>, now: int) {
    after == before || (after != [] && after[..|after| - 1] == before && after[|after| - 1].at == now)
  }

  /** A sale either leaves the book's memory alone or notes one close at the time of the sale. */
  lemma SellRemembers(s: Settings, a: Account, now: int, quantity: nat, reason: Reason, bid: int)
    requires a.position.Some? && quantity <= a.position.value.quantity && Remembers(a)
    ensures var b := SellSpec(s, a, now, quantity, reason, bid);
      Remembers(b) && Notes(a.closes, b.closes, now)
  {
    hide Streak, LatestStop, PauseEnd, Proceeds;
    if 1 <= quantity && quantity == a.position.value.quantity {
      var p := a.position.value;
      var t := MakeTrade(s, p, now, quantity, reason, bid);
      var cash := a.cash + Proceeds(s, bid, quantity);
      var sold := a.(
        trades := a.trades + [t], cash := cash, equity := cash, lastTradeAt := Some(now), position := None);
      var c := Close(p.direction, reason, t.netPnl, now);
      NoteCloseRemembers(sold, c);
      assert SellSpec(s, a, now, quantity, reason, bid) == NoteClose(sold, c);
    }
  }

  lemma StepRemembers(s: Settings, a: Account, c: Call)
    requires Remembers(a)
    ensures var b := Step(s, a, c);
      Remembers(b) && Notes(a.closes, b.closes, c.now)
  {
    hide SellSpec, Streak, LatestStop, PauseEnd;
    match c.op {
      case Tick(bid, decision) =>
        if a.position.Some? && bid > 0 {
          var p := a.position.value;
          var seen := a.(position := Some(p.(peakBid := Max(p.peakBid, bid))));
          match decision {
            case Hold =>
            case ScaleOut => SellRemembers(s, seen, c.now, p.quantity / 2, SCALE_OUT, bid);
            case Exit(reason) => SellRemembers(s, seen, c.now, p.quantity, reason, bid);
          }
        }
      case Flatten(why) =>
        if a.position.Some? {
          var p := a.position.value;
          SellRemembers(s, a, c.now, p.quantity, why, if p.peakBid > 0 then p.peakBid else p.entryPrice);
        }
      case _ =>
    }
  }

  /** The streak, the last stop and the pause are functions of the closes, over every run. */
  lemma {:induction false} MemoryIsHistory(s: Settings, calls: seq<Call>)
    ensures Remembers(Run(s, calls))
  {
    if calls != [] {
      MemoryIsHistory(s, calls[..|calls| - 1]);
      StepRemembers(s, Run(s, calls[..|calls| - 1]), calls[|calls| - 1]);
    }
  }

  // ----- Entries against a clock that does not run backwards -----

  predicate Timed(calls: seq<Call>) {
    forall i, j :: 0 <= i < j < |calls| ==> calls[i].now <= calls[j].now
  }

  predicate ClosesInOrder(closes: seq<Close>, until: int) {
    && (forall i :: 0 <= i < |closes| ==> closes[i].at <= until)
    && (forall i, j :: 0 <= i < j < |closes| ==> closes[i].at <= closes[j].at)
  }

  lemma NothingNoted(now: int)
    ensures ClosesInOrder([], now)
  {
  }

  lemma NotedInOrder(before: seq<Close>, after: seq<Close>, at: int, now: int)
    requires ClosesInOrder(before, at) && Notes(before, after, at) && at <= now
    ensures ClosesInOrder(after, now)
  {
  }

  lemma {:induction false} ClosesFollowTheClock(s: Settings, calls: seq<Call>, now: int)
    requires Timed(calls)
    requires forall i :: 0 <= i < |calls| ==> calls[i].now <= now
    ensures ClosesInOrder(Run(s, calls).closes, now)
  {
    hide Step, Remembers, Notes, ClosesInOrder;
    if calls == [] {
      NothingNoted(now);
    }
    if calls != [] {
      var init, c := calls[..|calls| - 1], calls[|calls| - 1];
      ClosesFollowTheClock(s, init, c.now);
      MemoryIsHistory(s, init);
      StepRemembers(s, Run(s, init), c);
      assert Run(s, calls) == Step(s, Run(s, init), c);
      NotedInOrder(Run(s, init).closes, Run(s, calls).closes, c.now, now);
    }
  }

  lemma {:induction false} PauseCoversEveryRun(closes: seq<Close>, until: int, i: nat)
    requires ClosesInOrder(closes, until) && i < |closes|
    requires Streak(closes[..i + 1]) >= STOP_STREAK_LIMIT
    ensures PauseEnd(closes) >= closes[i].at + STOP_STREAK_PAUSE_MS
  {
    if i == |closes| - 1 {
      assert closes[..i + 1] == closes;
    } else {
      var init := closes[..|closes| - 1];
      assert init[..i + 1] == closes[..i + 1];
      PauseCoversEveryRun(init, until, i);
    }
  }

  lemma {:induction false} LatestStopIsLast(closes: seq<Close>, i: nat)
    requires i < |closes| && IsStop(closes[i])
    requires forall j :: i < j < |closes| ==> !IsStop(closes[j])
    ensures LatestStop(closes) == Some(Stop(closes[i].direction, closes[i].at))
  {
    if i < |closes| - 1 {
      LatestStopIsLast(closes[..|closes| - 1], i);
    }
  }

  /**
   * No entry comes within ten minutes of a close that made three stops in a row, or within a minute
   * of the latest stop when that was its own direction.
   */
  lemma EntriesWaitForStops(s: Settings, calls: seq<Call>, c: Call, i: nat)
    requires Timed(calls) && c.op.Enter?
    requires |Step(s, Run(s, calls), c).entries| > |Run(s, calls).entries|
    requires i < |Run(s, calls).closes|
    ensures var closes := Run(s, calls).closes;
      Streak(closes[..i + 1]) >= STOP_STREAK_LIMIT ==> c.now >= closes[i].at + STOP_STREAK_PAUSE_MS
    ensures var closes := Run(s, calls).closes;
      IsStop(closes[i]) && (forall j :: i < j < |closes| ==> !IsStop(closes[j]))
        && closes[i].direction == c.op.direction
      ==> c.now >= closes[i].at + SAME_DIRECTION_BLOCK_MS
  {
    var a := Run(s, calls);
    MemoryIsHistory(s, calls);
    if calls != [] {
      ClosesFollowTheClock(s, calls, calls[|calls| - 1].now);
    }
    hide Run;
    if Streak(a.closes[..i + 1]) >= STOP_STREAK_LIMIT {
      PauseCoversEveryRun(a.closes, calls[|calls| - 1].now, i);
    }
    if IsStop(a.closes[i]) && forall j :: i < j < |a.closes| ==> !IsStop(a.closes[j]) {
      LatestStopIsLast(a.closes, i);
    }
  }

  /** `lastTradeAt` is no earlier than any trade or entry on record. */
  predicate Recent(a: Account) {
    && (a.trades != [] || a.entries != [] ==> a.lastTradeAt.Some?)
    && (a.lastTradeAt.Some? ==>
        && (forall t :: t in a.trades ==> t.closedAt <= a.lastTradeAt.value)
        && (forall e :: e in a.entries ==> e.at <= a.lastTradeAt.value))
  }

  predicate NotAfter(a: Account, now: int) {
    a.lastTradeAt.Some? ==> a.lastTradeAt.value <= now
  }

  lemma SellStaysRecent(s: Settings, a: Account, now: int, quantity: nat, reason: Reason, bid: int)
    requires a.position.Some? && quantity <= a.position.value.quantity && Recent(a) && NotAfter(a, now)
    ensures Recent(SellSpec(s, a, now, quantity, reason, bid))
    ensures NotAfter(SellSpec(s, a, now, quantity, reason, bid), now)
  {
    hide Proceeds, GrossPnl;
  }

  lemma SameRecords(a: Account, b: Account, now: int)
    requires Recent(a) && NotAfter(a, now)
    requires b.trades == a.trades && b.entries == a.entries && b.lastTradeAt == a.lastTradeAt
    ensures Recent(b) && NotAfter(b, now)
  {
  }

  lemma EnterStaysRecent(s: Settings, a: Account, now: int, direction: Direction, ask: int, bid: int, quantity: nat)
    requires Recent(a) && NotAfter(a, now)
    ensures Recent(EnterSpec(s, a, now, direction, ask, bid, quantity))
    ensures NotAfter(EnterSpec(s, a, now, direction, ask, bid, quantity), now)
  {
    hide EntryCost, EntryFill;
  }

  lemma StepStaysRecent(s: Settings, a: Account, c: Call)
    requires Recent(a) && NotAfter(a, c.now)
    ensures Recent(Step(s, a, c)) && NotAfter(Step(s, a, c), c.now)
  {
    hide SellSpec, Recent, NotAfter;
    match c.op {
      case Enter(direction, ask, bid, quantity) => EnterStaysRecent(s, a, c.now, direction, ask, bid, quantity);
      case Reset => SameRecords(a, Step(s, a, c), c.now);
      case Baseline => SameRecords(a, Step(s, a, c), c.now);
      case Tick(bid, decision) =>
        if a.position.Some? && bid > 0 {
          var p := a.position.value;
          var seen := a.(position := Some(p.(peakBid := Max(p.peakBid, bid))));
          SameRecords(a, seen, c.now);
          match decision {
            case Hold =>
            case ScaleOut =>
              SellStaysRecent(s, seen, c.now, p.quantity / 2, SCALE_OUT, bid);
              SameRecords(SellSpec(s, seen, c.now, p.quantity / 2, SCALE_OUT, bid), Step(s, a, c), c.now);
            case Exit(reason) => SellStaysRecent(s, seen, c.now, p.quantity, reason, bid);
          }
        }
      case Flatten(why) =>
        if a.position.Some? {
          var p := a.position.value;
          SellStaysRecent(s, a, c.now, p.quantity, why, if p.peakBid > 0 then p.peakBid else p.entryPrice);
        }
    }
  }

  lemma {:induction false} RunStaysRecent(s: Settings, calls: seq<Call>, now: int)
    requires Timed(calls) && forall i :: 0 <= i < |calls| ==> calls[i].now <= now
    ensures Recent(Run(s, calls)) && NotAfter(Run(s, calls), now)
  {
    hide Step, Recent, NotAfter;
    if calls == [] {
      NothingIsRecent(now);
    } else {
      var init, c := calls[..|calls| - 1], calls[|calls| - 1];
      RunStaysRecent(s, init, c.now);
      StepStaysRecent(s, Run(s, init), c);
      LaterIsNotAfter(Step(s, Run(s, init), c), c.now, now);
    }
  }

  lemma NothingIsRecent(now: int)
    ensures Recent(Opened()) && NotAfter(Opened(), now)
  {
  }

  lemma LaterIsNotAfter(a: Account, now: int, later: int)
    requires NotAfter(a, now) && now <= later
    ensures NotAfter(a, later)
  {
  }

  /** One position at a time, and no entry within the cooldown of any earlier entry or sale. */
  lemma EntriesWaitForTheCooldown(s: Settings, calls: seq<Call>, c: Call)
    requires Timed(calls + [c]) && c.op.Enter?
    requires |Step(s, Run(s, calls), c).entries| > |Run(s, calls).entries|
    ensures var a := Run(s, calls);
      && a.position.None?
      && (forall i :: 0 <= i < |a.trades| ==> c.now - a.trades[i].closedAt >= s.cooldownMs)
      && (forall i :: 0 <= i < |a.entries| ==> c.now - a.entries[i].at >= s.cooldownMs)
  {
    var all := calls + [c];
    forall i | 0 <= i < |calls| ensures calls[i].now <= c.now {
      assert all[i] == calls[i] && all[|calls|] == c;
    }
    assert Timed(calls) by {
      assert forall i :: 0 <= i < |calls| ==> all[i] == calls[i];
    }
    RunStaysRecent(s, calls, c.now);
    hide Run;
  }

  /** The gate of `evaluateEntry` on one direction. */
  predicate Blocked(a: Account, now: int, direction: Direction) {
    a.lastStop.Some? && a.lastStop.value.direction == direction && now - a.lastStop.value.at < SAME_DIRECTION_BLOCK_MS
  }

  /** The close that the book's last stop came from: no stop follows it. */
  predicate IsLatestStop(closes: seq<Close>, k: nat)
    requires k < |closes|
  {
    && IsStop(closes[k]) && LatestStop(closes) == Some(Stop(closes[k].direction, closes[k].at))
    && forall j :: k < j < |closes| ==> !IsStop(closes[j])
  }

  lemma {:induction false} LatestStopExists(closes: seq<Close>, i: nat)
    requires i < |closes| && IsStop(closes[i])
    ensures exists k :: i <= k < |closes| && IsLatestStop(closes, k)
  {
    if IsStop(closes[|closes| - 1]) {
      assert IsLatestStop(closes, |closes| - 1);
    } else {
      var init := closes[..|closes| - 1];
      LatestStopExists(init, i);
      var k :| i <= k < |init| && IsLatestStop(init, k);
      assert IsLatestStop(closes, k);
    }
  }

  /**
   * A direction stopped less than a minute ago is still blocked exactly when no stop of the other direction has
   * come since.
   */
  lemma BlockHoldsExactly(s: Settings, calls: seq<Call>, now: int, i: nat)
    requires i < |Run(s, calls).closes|
    requires var closes := Run(s, calls).closes;
      && IsStop(closes[i]) && now - closes[i].at < SAME_DIRECTION_BLOCK_MS
      && forall j :: i < j < |closes| && IsStop(closes[j]) ==> closes[j].direction != closes[i].direction
    ensures Blocked(Run(s, calls), now, Run(s, calls).closes[i].direction)
            <==> forall j :: i < j < |Run(s, calls).closes| ==> !IsStop(Run(s, calls).closes[j])
  {
    MemoryIsHistory(s, calls);
    hide Run;
    var closes := Run(s, calls).closes;
    LatestStopExists(closes, i);
    var k :| i <= k < |closes| && IsLatestStop(closes, k);
  }

  function Forgotten(): seq<Call> {
    [Call(0, Enter(CALL, 100, 100, 1)), Call(1000, Tick(50, Exit(PREMIUM_STOP))),
     Call(2000, Enter(PUT, 100, 100, 1)), Call(3000, Tick(50, Exit(PREMIUM_STOP)))]
  }

  lemma RunSnoc(s: Settings, calls: seq<Call>, c: Call)
    ensures Run(s, calls + [c]) == Step(s, Run(s, calls), c)
  {
    assert (calls + [c])[..|calls|] == calls;
  }

  const FEES := Settings(65, 0, 0)

  /** The account after a one-lot round trip from 100 cents to 50, stopped out at `at`. */
  function StoppedOut(a: Account, direction: Direction, at: int): Account {
    a.(cash := a.cash - 5130, equity := a.cash - 5130, lastTradeAt := Some(at),
       lastStop := Some(Stop(direction, at)), stopStreak := a.stopStreak + 1,
       entries := a.entries + [Entry(direction, 1, 100, at - 1000)],
       trades := a.trades + [Trade(|a.entries|, direction, 1, 100, 50, PREMIUM_STOP, -5000, 130, -5130, at)],
       closes := a.closes + [Close(direction, PREMIUM_STOP, -5130, at)])
  }

  lemma StopOut(a: Account, direction: Direction, at: int)
    requires a.position.None? && a.equity == a.cash >= 10_065 && a.stopStreak < 2
    requires MayEnter(FEES, a, at - 1000, direction)
    ensures Step(FEES, Step(FEES, a, Call(at - 1000, Enter(direction, 100, 100, 1))),
      Call(at, Tick(50, Exit(PREMIUM_STOP))))
         == StoppedOut(a, direction, at)
  {
    var b := Step(FEES, a, Call(at - 1000, Enter(direction, 100, 100, 1)));
    assert EntryCost(FEES, 100, 1) == 10_065;
    assert b == a.(cash := a.cash - 10_065, equity := a.cash - 10_065,
      position := Some(Position(|a.entries|, direction, 1, 1, 100, 100, false)), lastTradeAt := Some(at - 1000),
      entries := a.entries + [Entry(direction, 1, 100, at - 1000)]);
    assert Proceeds(FEES, 50, 1) == 4935;
    assert MakeTrade(FEES, b.position.value, at, 1, PREMIUM_STOP, 50)
        == Trade(|a.entries|, direction, 1, 100, 50, PREMIUM_STOP, -5000, 130, -5130, at);
    hide EntryCost, Proceeds, GrossPnl, CommissionForRoundTrip;
  }

  /** The promise of a minute's block fails here: calls are bought again three seconds after a call was stopped. */
  lemma OtherStopForgetsTheBlock()
    ensures var a := Run(FEES, Forgotten());
      && |a.closes| == 2 && IsStop(a.closes[0]) && a.closes[0].direction == CALL && a.closes[0].at == 1000
      && |Step(FEES, a, Call(4000, Enter(CALL, 100, 100, 1))).entries| > |a.entries|
  {
    hide Step, Run, StoppedOut, Forgotten, MayEnter;
    var a := StoppedOut(Opened(), CALL, 1000);
    ForgottenUnrolls();
    assert MayEnter(FEES, Opened(), 0, CALL) && MayEnter(FEES, a, 2000, PUT)
      && MayEnter(FEES, StoppedOut(a, PUT, 3000), 4000, CALL)
      by { BothStopped(); }
    AfterTwoStops();
    StopOut(Opened(), CALL, 1000);
    StopOut(a, PUT, 3000);
    OneMoreEntry(StoppedOut(a, PUT, 3000), CALL, 4000);
  }

  lemma ForgottenUnrolls()
    ensures Run(FEES, Forgotten()) ==
      Step(FEES, Step(FEES, Step(FEES, Step(FEES, Opened(),
        Call(0, Enter(CALL, 100, 100, 1))), Call(1000, Tick(50, Exit(PREMIUM_STOP)))),
        Call(2000, Enter(PUT, 100, 100, 1))), Call(3000, Tick(50, Exit(PREMIUM_STOP))))
  {
    hide Step;
    var f := Forgotten();
    assert f[..4] == f && f[..3] == f[..2] + [f[2]] && f[..2] == [f[0]] + [f[1]] && [] + [f[0]] == [f[0]];
    assert f == f[..3] + [f[3]];
    assert Run(FEES, []) == Opened();
    hide Run;
    RunSnoc(FEES, f[..3], f[3]);
    RunSnoc(FEES, f[..2], f[2]);
    RunSnoc(FEES, [f[0]], f[1]);
    RunSnoc(FEES, [], f[0]);
  }

  lemma BothStopped()
    ensures var a := StoppedOut(Opened(), CALL, 1000);
      MayEnter(FEES, Opened(), 0, CALL) && MayEnter(FEES, a, 2000, PUT)
        && MayEnter(FEES, StoppedOut(a, PUT, 3000), 4000, CALL)
  {
  }

  lemma AfterTwoStops()
    ensures var a := StoppedOut(Opened(), CALL, 1000);
      && a.position.None? && a.equity == a.cash && a.cash >= 10_065 && a.stopStreak == 1
      && var b := StoppedOut(a, PUT, 3000);
      && b.cash >= 10_065 && |b.closes| == 2
      && IsStop(b.closes[0]) && b.closes[0].direction == CALL && b.closes[0].at == 1000
  {
  }

  lemma OneMoreEntry(a: Account, direction: Direction, now: int)
    requires MayEnter(FEES, a, now, direction) && a.cash >= 10_065
    ensures |Step(FEES, a, Call(now, Enter(direction, 100, 100, 1))).entries| == |a.entries| + 1
  {
    assert EntryCost(FEES, 100, 1) == 10_065;
  }
}
