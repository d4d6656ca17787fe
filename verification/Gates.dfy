/** Exactly when the ledger buys, in terms of what it has recorded and nothing it remembers. */
module Gates {
  import opened Brakes
  import opened Ledger
  import opened Market
  import opened Seqs

  predicate LosingStop(c: Close) {
    c.reason == PREMIUM_STOP && c.netPnl < 0
  }

  /** Three full closes in a row were losing stops, the last of them less than ten minutes ago. */
  ghost predicate Paused(closes: seq<Close>, now: int) {
    exists i :: 2 <= i < |closes| && ThreeStopsAt(closes, i) && now - closes[i].at < 600_000
  }

  predicate ThreeStopsAt(closes: seq<Close>, i: int)
    requires 2 <= i < |closes|
  {
    LosingStop(closes[i]) && LosingStop(closes[i - 1]) && LosingStop(closes[i - 2])
  }

  /** The latest losing stop was one of this direction, less than a minute ago. */
  ghost predicate Barred(closes: seq<Close>, now: int, direction: Direction) {
    exists i :: 0 <= i < |closes| && LatestStopAt(closes, i) && closes[i].direction == direction
      && now - closes[i].at < 60_000
  }

  predicate LatestStopAt(closes: seq<Close>, i: nat)
    requires i < |closes|
  {
    LosingStop(closes[i]) && forall j :: i < j < |closes| ==> !LosingStop(closes[j])
  }

  /** Nothing was bought or sold within the cooldown. */
  predicate Rested(s: Settings, a: Account, now: int) {
    && (forall t :: t in a.trades ==> now - t.closedAt >= s.cooldownMs)
    && (forall e :: e in a.entries ==> now - e.at >= s.cooldownMs)
  }

  predicate Affords(s: Settings, a: Account, ask: int, quantity: nat) {
    ask >= 1 && quantity >= 1 && (ask + s.slippageCents) * 100 * quantity + s.feeCents * quantity <= a.cash
  }

  // ----- The last trade on record -----

  /** `lastTradeAt` is the time of a record. */
  ghost predicate Recorded(a: Account) {
    a.lastTradeAt.Some? ==>
      || (exists t :: t in a.trades && t.closedAt == a.lastTradeAt.value)
      || (exists e :: e in a.entries && e.at == a.lastTradeAt.value)
  }

  lemma SaleIsRecorded(s: Settings, a: Account, now: int, quantity: nat, reason: Reason, bid: int)
    requires a.position.Some? && quantity <= a.position.value.quantity && Recorded(a)
    ensures Recorded(SellSpec(s, a, now, quantity, reason, bid))
  {
    var b := SellSpec(s, a, now, quantity, reason, bid);
    if quantity >= 1 {
      assert b.trades[|a.trades|].closedAt == now;
    }
    hide Proceeds, GrossPnl, CommissionForRoundTrip;
  }

  lemma SameRecorded(a: Account, b: Account)
    requires Recorded(a) && b.trades == a.trades && b.entries == a.entries && b.lastTradeAt == a.lastTradeAt
    ensures Recorded(b)
  {
  }

  lemma EntryIsRecorded(s: Settings, a: Account, now: int, direction: Direction, ask: int, bid: int, quantity: nat)
    requires Recorded(a)
    ensures Recorded(EnterSpec(s, a, now, direction, ask, bid, quantity))
  {
    hide EntryCost, EntryFill, MayEnter;
    var b := EnterSpec(s, a, now, direction, ask, bid, quantity);
    if b != a {
      assert b.entries[|a.entries|].at == now;
    }
  }

  lemma StepIsRecorded(s: Settings, a: Account, c: Call)
    requires Recorded(a)
    ensures Recorded(Step(s, a, c))
  {
    hide SellSpec, Recorded, EnterSpec;
    match c.op {
      case Enter(direction, ask, bid, quantity) => EntryIsRecorded(s, a, c.now, direction, ask, bid, quantity);
      case Tick(bid, decision) =>
        if a.position.Some? && bid > 0 {
          var p := a.position.value;
          var seen := a.(position := Some(p.(peakBid := Max(p.peakBid, bid))));
          SameRecorded(a, seen);
          match decision {
            case Hold =>
            case ScaleOut =>
              SaleIsRecorded(s, seen, c.now, p.quantity / 2, SCALE_OUT, bid);
              SameRecorded(SellSpec(s, seen, c.now, p.quantity / 2, SCALE_OUT, bid), Step(s, a, c));
            case Exit(reason) => SaleIsRecorded(s, seen, c.now, p.quantity, reason, bid);
          }
        }
      case Flatten(why) =>
        if a.position.Some? {
          var p := a.position.value;
          SaleIsRecorded(s, a, c.now, p.quantity, why, if p.peakBid > 0 then p.peakBid else p.entryPrice);
        }
      case _ => SameRecorded(a, Step(s, a, c));
    }
  }

  lemma {:induction false} RunIsRecorded(s: Settings, calls: seq<Call>)
    ensures Recorded(Run(s, calls))
  {
    hide Step;
    if calls != [] {
      RunIsRecorded(s, calls[..|calls| - 1]);
      StepIsRecorded(s, Run(s, calls[..|calls| - 1]), calls[|calls| - 1]);
    }
  }

  lemma RestedExactly(s: Settings, a: Account, now: int)
    requires Recent(a) && Recorded(a)
    ensures Rested(s, a, now) <==> (a.lastTradeAt.Some? ==> now - a.lastTradeAt.value >= s.cooldownMs)
  {
  }

  // ----- The stops on record -----

  lemma StopsAreLosing(c: Close)
    ensures IsStop(c) <==> LosingStop(c)
  {
  }

  lemma StreakOfThree(closes: seq<Close>)
    ensures Streak(closes) >= 3 <==> |closes| >= 3 && ThreeStopsAt(closes, |closes| - 1)
  {
    if closes != [] {
      var one := closes[..|closes| - 1];
      if one != [] {
        var two := one[..|one| - 1];
        assert Streak(closes) >= 3 <==> IsStop(closes[|closes| - 1]) && IsStop(one[|one| - 1]) && Streak(two) >= 1;
      }
    }
  }

  lemma {:induction false} PauseIsSet(closes: seq<Close>)
    ensures PauseEnd(closes) == 0
      || exists i :: 2 <= i < |closes| && ThreeStopsAt(closes, i) && PauseEnd(closes) == closes[i].at + 600_000
  {
    hide Streak;
    if closes != [] {
      StreakOfThree(closes);
      if Streak(closes) < STOP_STREAK_LIMIT {
        var init := closes[..|closes| - 1];
        PauseIsSet(init);
        if PauseEnd(init) != 0 {
          var i :| 2 <= i < |init| && ThreeStopsAt(init, i) && PauseEnd(init) == init[i].at + 600_000;
          assert ThreeStopsAt(closes, i);
        }
      }
    }
  }

  lemma PausedExactly(closes: seq<Close>, now: int)
    requires ClosesInOrder(closes, now) && now >= 0
    ensures Paused(closes, now) <==> now < PauseEnd(closes)
  {
    hide Streak, PauseEnd;
    PauseIsSet(closes);
    if Paused(closes, now) {
      var i :| 2 <= i < |closes| && ThreeStopsAt(closes, i) && now - closes[i].at < 600_000;
      StreakOfThree(closes[..i + 1]);
      assert ThreeStopsAt(closes[..i + 1], i);
      PauseCoversEveryRun(closes, now, i);
    }
  }

  lemma {:induction false} BarredExactly(closes: seq<Close>, now: int, direction: Direction)
    ensures Barred(closes, now, direction)
       <==> LatestStop(closes).Some? && LatestStop(closes).value.direction == direction
            && now - LatestStop(closes).value.at < 60_000
  {
    if closes != [] {
      var init, last := closes[..|closes| - 1], |closes| - 1;
      BarredExactly(init, now, direction);
      if LosingStop(closes[last]) {
        assert LatestStopAt(closes, last);
      } else {
        if Barred(init, now, direction) {
          var i :| 0 <= i < |init| && LatestStopAt(init, i) && init[i].direction == direction
            && now - init[i].at < 60_000;
          assert LatestStopAt(closes, i);
        }
        if Barred(closes, now, direction) {
          var i :| 0 <= i < |closes| && LatestStopAt(closes, i) && closes[i].direction == direction
            && now - closes[i].at < 60_000;
          assert LatestStopAt(init, i);
        }
      }
    }
  }

  // ----- The entry -----

  /**
   * Over every run on a clock that does not go back, a call buys exactly when the account is flat, can pay for
   * at least one contract at the slipped ask, has neither bought nor sold within the cooldown, is not paused by
   * three losing stops in a row, and was not last stopped out of this direction within the minute.
   */
  lemma EntersExactly(s: Settings, calls: seq<Call>, c: Call)
    requires Timed(calls + [c]) && c.op.Enter? && c.now >= 0
    ensures var a := Run(s, calls);
      |Step(s, a, c).entries| > |a.entries|
      <==>
      && a.position.None? && Affords(s, a, c.op.ask, c.op.quantity) && Rested(s, a, c.now)
      && !Paused(a.closes, c.now) && !Barred(a.closes, c.now, c.op.direction)
  {
    var a := Run(s, calls);
    TimedSplits(calls, c);
    MemoryIsHistory(s, calls);
    RunStaysRecent(s, calls, c.now);
    RunIsRecorded(s, calls);
    ClosesFollowTheClock(s, calls, c.now);
    hide Run, Paused, Barred, Rested, Recent, Recorded, ClosesInOrder, NotAfter, Streak;
    RestedExactly(s, a, c.now);
    PausedExactly(a.closes, c.now);
    BarredExactly(a.closes, c.now, c.op.direction);
    hide LatestStop, PauseEnd;
  }

  lemma TimedSplits(calls: seq<Call>, c: Call)
    requires Timed(calls + [c])
    ensures Timed(calls) && forall i :: 0 <= i < |calls| ==> calls[i].now <= c.now
  {
    var all := calls + [c];
    assert all[|calls|] == c;
    assert forall i :: 0 <= i < |calls| ==> all[i] == calls[i];
  }
}
