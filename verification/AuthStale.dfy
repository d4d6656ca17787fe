/**
 * When the refresh protocol goes wrong: exactly which rows are handed over stale, and exactly which
 * refusals delete a connection that is alive.
 */
module AuthStale {
  import opened Auth
  import opened AuthSafety
  import opened Seqs

  /** The system before event `i` of a run. */
  function At(s: Sys, events: seq<Event>, i: nat): Sys
    requires i <= |events|
  {
    Run(s, events[..i])
  }

  lemma AtLast(s: Sys, events: seq<Event>)
    requires events != []
    ensures Run(s, events) == Step(At(s, events, |events| - 1), events[|events| - 1])
    ensures forall i :: 0 <= i < |events| ==> At(s, events[..|events| - 1], i) == At(s, events, i)
  {
    hide Run, Step;
    var init := events[..|events| - 1];
    forall i | 0 <= i < |events| ensures At(s, init, i) == At(s, events, i) {
      assert init[..i] == events[..i];
    }
    RunLast(s, events);
  }

  lemma RunLast(s: Sys, events: seq<Event>)
    requires events != []
    ensures Run(s, events) == Step(Run(s, events[..|events| - 1]), events[|events| - 1])
  {
    hide Step;
  }

  // ----- What each kind of event leaves alone -----

  predicate ByCaller(e: Event) {
    e.CallGet? || e.CallForce? || e.ReadRow? || e.Resume? || e.Wake?
  }

  predicate ByCron(e: Event) {
    e.CronRead? || e.CronNext? || e.CronWake?
  }

  predicate ByServer(e: Event) {
    e.Accept? || e.AcceptPartial? || e.Reject? || e.FailCall?
  }

  predicate ByFlight(e: Event) {
    e.Persist? || e.UpdateCache? || e.Finally?
  }

  predicate ByCallback(e: Event) {
    !ByCaller(e) && !ByCron(e) && !ByServer(e) && !ByFlight(e)
  }

  predicate CallbackFramed(t: Sys, u: Sys) {
    && (u.callers, u.crons, u.flights, u.promises, u.spent) == (t.callers, t.crons, t.flights, t.promises, t.spent)
    && t.owners <= u.owners
  }

  lemma CallbackSaves(t: Sys, e: Event)
    requires e.CallbackPersist?
    ensures CallbackFramed(t, Step(t, e))
  {
    hide CallbackFramed, StoreByCallback, ForgetByCallback;
    var k := e.callback;
    if k < |t.callbacks| && t.callbacks[k].at.FoundRow? {
      var existing := t.callbacks[k].at.existing;
      match t.callbacks[k].at.reply {
        case Tokens(g, expiresIn) =>
          var id := if existing.Some? then existing.value else e.freshId;
          CallbackStores(t, k, existing, Row(id, t.callbacks[k].user, g, e.now + expiresIn * 1000));
        case _ => CallbackForgetsRow(t, k, existing);
      }
    }
    NothingFramed(t);
  }

  lemma NothingFramed(t: Sys)
    ensures CallbackFramed(t, t)
  {
  }

  lemma CallbackStores(t: Sys, k: nat, existing: Option<int>, row: Row)
    requires k < |t.callbacks|
    ensures CallbackFramed(t, StoreByCallback(t, k, existing, row))
  {
    hide DeleteRow, SaveRow;
  }

  lemma CallbackForgetsRow(t: Sys, k: nat, existing: Option<int>)
    requires k < |t.callbacks|
    ensures CallbackFramed(t, ForgetByCallback(t, k, existing))
  {
    hide DeleteRow;
  }

  lemma CallbackFrame(t: Sys, e: Event)
    requires ByCallback(e)
    ensures CallbackFramed(t, Step(t, e))
  {
    hide Step;
    match e {
      case CallbackPersist(_, _, _) => CallbackSaves(t, e);
      case CallbackRead(_) => ReadFrame(t, e);
      case CallbackFinish(_) => ReadFrame(t, e);
      case _ => CodeFrame(t, e);
    }
  }

  lemma ReadFrame(t: Sys, e: Event)
    requires e.CallbackRead? || e.CallbackFinish?
    ensures CallbackFramed(t, Step(t, e))
  {
  }

  lemma CodeFrame(t: Sys, e: Event)
    requires e.CallbackStart? || e.GrantCode? || e.GrantCodePartial? || e.RefuseCode?
    ensures CallbackFramed(t, Step(t, e))
  {
  }

  /** Only its own flight moves, forward, and only its end drops a promise. */
  ghost predicate FlightFramed(t: Sys, u: Sys, e: Event)
    requires ByFlight(e)
  {
    && (u.callers, u.crons, u.spent, u.owners) == (t.callers, t.crons, t.spent, t.owners)
    && |u.flights| == |t.flights|
    && (e.flight >= |t.flights| ==> u == t)
    && (forall f :: 0 <= f < |t.flights| ==> FlightMoves(t.flights[f], u.flights[f], f == e.flight))
    && (e.flight < |t.flights| && t.flights[e.flight].phase.Answered? && !e.Persist? ==> u == t)
    && (t.promises != u.promises ==>
        && e.flight < |t.flights| && t.flights[e.flight].phase.Settled?
        && u.promises == t.promises - {t.flights[e.flight].row.user})
  }

  predicate FlightMoves(before: Flight, after: Flight, mine: bool) {
    && after.row == before.row && (!mine ==> after == before)
    && (after.phase.Answered? ==> after == before)
  }

  lemma PersistFrame(t: Sys, e: Event)
    requires e.Persist?
    ensures FlightFramed(t, Step(t, e), e)
  {
    hide FlightFramed, StoreByFlight, ForgetByFlight;
    if e.flight < |t.flights| && t.flights[e.flight].phase.Answered? {
      match t.flights[e.flight].phase.reply {
        case Tokens(g, expiresIn) => StoreFrame(t, e, g, e.now + expiresIn * 1000);
        case _ => ForgetFrame(t, e);
      }
    } else {
      NothingMoves(t, e);
    }
  }

  lemma StoreFrame(t: Sys, e: Event, g: nat, expiresAt: int)
    requires e.Persist? && e.flight < |t.flights| && t.flights[e.flight].phase.Answered?
    ensures FlightFramed(t, StoreByFlight(t, e.flight, g, expiresAt), e)
  {
    hide DeleteRow, SaveRow;
  }

  lemma ForgetFrame(t: Sys, e: Event)
    requires e.Persist? && e.flight < |t.flights| && t.flights[e.flight].phase.Answered?
    ensures FlightFramed(t, ForgetByFlight(t, e.flight), e)
    ensures FlightFramed(t, SetFlight(t, e.flight, Settled(None)), e)
  {
    hide DeleteRow;
  }

  lemma NothingMoves(t: Sys, e: Event)
    requires ByFlight(e)
    ensures FlightFramed(t, t, e)
  {
  }

  lemma UpdateCacheFrame(t: Sys, e: Event)
    requires e.UpdateCache?
    ensures FlightFramed(t, Step(t, e), e)
  {
  }

  lemma FinallyFrame(t: Sys, e: Event)
    requires e.Finally?
    ensures FlightFramed(t, Step(t, e), e)
  {
  }

  lemma FlightFrame(t: Sys, e: Event)
    requires ByFlight(e)
    ensures FlightFramed(t, Step(t, e), e)
  {
    hide Step, FlightFramed;
    if e.Persist? {
      PersistFrame(t, e);
    } else if e.UpdateCache? {
      UpdateCacheFrame(t, e);
    } else {
      FinallyFrame(t, e);
    }
  }

  /** Only a sent flight is answered, and only an accepted one spends its token. */
  ghost predicate ServerFramed(t: Sys, u: Sys, e: Event)
    requires ByServer(e)
  {
    && (u.callers, u.crons, u.promises, u.rows) == (t.callers, t.crons, t.promises, t.rows)
    && t.owners <= u.owners && |u.flights| == |t.flights|
    && (forall f :: 0 <= f < |t.flights| ==>
        u.flights[f].row == t.flights[f].row
        && (u.flights[f] != t.flights[f] ==> f == e.flight && t.flights[f].phase.Sent?)
        && (Unsettled(u.flights[f].phase) ==> Unsettled(t.flights[f].phase) || Redeems(t, e, t.flights[f].row.grant)))
    && (forall g :: g in u.spent <==> g in t.spent || Redeems(t, e, g))
    && ((e.Accept? || e.AcceptPartial?) && CanAccept(t, e.flight) ==> Unsettled(u.flights[e.flight].phase))
  }

  lemma AcceptFrame(t: Sys, e: Event)
    requires e.Accept?
    ensures ServerFramed(t, Step(t, e), e)
  {
  }

  lemma AcceptPartialFrame(t: Sys, e: Event)
    requires e.AcceptPartial?
    ensures ServerFramed(t, Step(t, e), e)
  {
  }

  lemma RefuseFrame(t: Sys, e: Event)
    requires e.Reject? || e.FailCall?
    ensures ServerFramed(t, Step(t, e), e)
  {
  }

  lemma ServerFrame(t: Sys, e: Event)
    requires ByServer(e)
    ensures ServerFramed(t, Step(t, e), e)
  {
    hide Step, ServerFramed;
    match e {
      case Accept(_, _) => AcceptFrame(t, e);
      case AcceptPartial(_) => AcceptPartialFrame(t, e);
      case _ => RefuseFrame(t, e);
    }
  }

  /** Flights are only added, under their user's promise. */
  predicate Launches(t: Sys, u: Sys) {
    && t.flights <= u.flights && (forall f :: |t.flights| <= f < |u.flights| ==> u.flights[f].phase == Sent)
    && (forall user :: user in t.promises ==> user in u.promises && u.promises[user] == t.promises[user])
  }

  lemma OnceLaunches(t: Sys, row: Row)
    ensures var (u, f) := Once(t, row);
      && Launches(t, u)
      && (u.callers, u.crons, u.spent, u.owners, u.rows) == (t.callers, t.crons, t.spent, t.owners, t.rows)
  {
  }

  lemma CallerFrame(t: Sys, e: Event)
    requires ByCaller(e)
    ensures var u := Step(t, e); (u.crons, u.spent, u.owners) == (t.crons, t.spent, t.owners)
    ensures Launches(t, Step(t, e))
  {
    hide Once;
    if e.Resume? && e.caller < |t.callers| && t.callers[e.caller].at.HasRow? && t.callers[e.caller].at.row.Some? {
      OnceLaunches(t, t.callers[e.caller].at.row.value);
    }
  }

  lemma CronFrame(t: Sys, e: Event)
    requires ByCron(e)
    ensures var u := Step(t, e); (u.callers, u.spent, u.owners) == (t.callers, t.spent, t.owners)
    ensures Launches(t, Step(t, e))
  {
    hide Once, StoredRows;
    if e.CronNext? && e.cron < |t.crons| && t.crons[e.cron].todo != [] {
      OnceLaunches(t, t.crons[e.cron].todo[0]);
    }
  }

  /** One of the frames applies. */
  lemma Frames(t: Sys, e: Event)
    ensures ByCallback(e) ==> CallbackFramed(t, Step(t, e))
    ensures ByFlight(e) || ByServer(e) ==> Step(t, e).callers == t.callers && Step(t, e).crons == t.crons
    ensures ByCaller(e) ==> Step(t, e).crons == t.crons && Launches(t, Step(t, e))
    ensures ByCron(e) ==> Step(t, e).callers == t.callers && Launches(t, Step(t, e))
    ensures !ByServer(e) ==> Step(t, e).spent == t.spent
    ensures t.owners <= Step(t, e).owners
  {
    hide Step, Redeems, Launches;
    if ByCallback(e) {
      CallbackFrame(t, e);
    } else if ByFlight(e) {
      FlightFrame(t, e);
    } else if ByServer(e) {
      ServerFrame(t, e);
    } else if ByCaller(e) {
      CallerFrame(t, e);
    } else {
      CronFrame(t, e);
    }
  }

  // ----- Spent means redeemed -----

  /** The server takes a refresh token at this event. */
  predicate Redeems(t: Sys, e: Event, grant: nat) {
    match e
    case Accept(f, _) => CanAccept(t, f) && t.flights[f].row.grant == grant
    case AcceptPartial(f) => CanAccept(t, f) && t.flights[f].row.grant == grant
    case _ => false
  }

  lemma StepSpends(t: Sys, e: Event, grant: nat)
    ensures grant in Step(t, e).spent <==> grant in t.spent || Redeems(t, e, grant)
  {
    hide Step, Launches;
    Frames(t, e);
    if ByServer(e) {
      ServerFrame(t, e);
    }
  }

  ghost predicate Redeemed(s: Sys, events: seq<Event>, grant: nat) {
    exists i :: 0 <= i < |events| && Redeems(At(s, events, i), events[i], grant)
  }

  /** Over any run, a refresh token is spent exactly when it was before, or an event of the run redeemed it. */
  lemma {:induction false} SpentIsRedeemed(s: Sys, events: seq<Event>, grant: nat)
    ensures grant in Run(s, events).spent <==> grant in s.spent || Redeemed(s, events, grant)
  {
    hide Step, Redeems;
    if events != [] {
      var init, e := events[..|events| - 1], events[|events| - 1];
      AtLast(s, events);
      SpentIsRedeemed(s, init, grant);
      StepSpends(Run(s, init), e, grant);
      if Redeemed(s, init, grant) {
        var i :| 0 <= i < |init| && Redeems(At(s, init, i), init[i], grant);
        assert Redeems(At(s, events, i), events[i], grant);
      }
      if Redeemed(s, events, grant) {
        var i :| 0 <= i < |events| && Redeems(At(s, events, i), events[i], grant);
        assert i < |init| ==> Redeems(At(s, init, i), init[i], grant);
      }
    }
  }

  // ----- Where a handed row was read -----

  ghost predicate CallerReadAt(s: Sys, events: seq<Event>, r: nat, c: nat) {
    && r < |events| && events[r] == ReadRow(c)
    && c < |At(s, events, r).callers| && At(s, events, r).callers[c].at.Reading?
  }

  ghost predicate CronReadAt(s: Sys, events: seq<Event>, r: nat, k: nat) {
    r < |events| && events[r].CronRead? && |At(s, events, r).crons| == k
  }

  /** Event `r` read the row that `e` would hand over: its caller's one read, or its cron's. */
  ghost predicate ReadAt(s: Sys, events: seq<Event>, r: nat, e: Event) {
    match e
    case Resume(c, _) => CallerReadAt(s, events, r, c)
    case CronNext(k) => CronReadAt(s, events, r, k)
    case _ => false
  }

  /** Callers only come and go forward; the one that reads a row gets the row stored then. */
  predicate CallerAdvances(t: Sys, u: Sys, e: Event, c: nat) {
    && |u.callers| >= |t.callers|
    && (c < |t.callers| ==>
        && u.callers[c].user == t.callers[c].user
        && (u.callers[c].at.Reading? ==> t.callers[c].at.Reading?)
        && (u.callers[c].at.HasRow? && u.callers[c].at != t.callers[c].at ==>
            && e == ReadRow(c) && t.callers[c].at.Reading?
            && u.callers[c].at.row == if t.callers[c].user in t.rows then Some(t.rows[t.callers[c].user]) else None)
        && (e == ReadRow(c) ==> !u.callers[c].at.Reading?))
    && (|t.callers| <= c < |u.callers| ==> !u.callers[c].at.HasRow?)
  }

  lemma CallerStep(t: Sys, e: Event, c: nat)
    ensures CallerAdvances(t, Step(t, e), e, c)
  {
    hide Step, Launches;
    match e {
      case Resume(_, _) => ResumeAdvances(t, e, c);
      case ReadRow(_) => ReadAdvances(t, e, c);
      case CallGet(_, _) => CallAdvances(t, e, c);
      case CallForce(_) => CallAdvances(t, e, c);
      case Wake(_) => WakeAdvances(t, e, c);
      case _ => Frames(t, e);
    }
  }

  lemma ResumeAdvances(t: Sys, e: Event, c: nat)
    requires e.Resume?
    ensures CallerAdvances(t, Step(t, e), e, c)
  {
    hide Once;
    if e.caller < |t.callers| && t.callers[e.caller].at.HasRow? && t.callers[e.caller].at.row.Some? {
      OnceLaunches(t, t.callers[e.caller].at.row.value);
    }
    hide Launches;
  }

  lemma ReadAdvances(t: Sys, e: Event, c: nat)
    requires e.ReadRow?
    ensures CallerAdvances(t, Step(t, e), e, c)
  {
  }

  lemma CallAdvances(t: Sys, e: Event, c: nat)
    requires e.CallGet? || e.CallForce?
    ensures CallerAdvances(t, Step(t, e), e, c)
  {
  }

  lemma WakeAdvances(t: Sys, e: Event, c: nat)
    requires e.Wake?
    ensures CallerAdvances(t, Step(t, e), e, c)
  {
  }

  lemma CronStep(t: Sys, e: Event, k: nat)
    ensures |Step(t, e).crons| >= |t.crons|
    ensures k < |t.crons| ==> forall row :: row in Step(t, e).crons[k].todo ==> row in t.crons[k].todo
    ensures |t.crons| <= k < |Step(t, e).crons| ==>
      e.CronRead? && k == |t.crons| && Step(t, e).crons[k].todo == StoredRows(t, e.users)
    ensures e.CronRead? ==> |Step(t, e).crons| == |t.crons| + 1
  {
    if ByCron(e) {
      CronMoves(t, e, k);
    } else {
      Frames(t, e);
    }
    hide Step, Launches;
  }

  lemma CronMoves(t: Sys, e: Event, k: nat)
    requires ByCron(e)
    ensures |Step(t, e).crons| >= |t.crons|
    ensures k < |t.crons| ==> forall row :: row in Step(t, e).crons[k].todo ==> row in t.crons[k].todo
    ensures |t.crons| <= k < |Step(t, e).crons| ==>
      e.CronRead? && k == |t.crons| && Step(t, e).crons[k].todo == StoredRows(t, e.users)
    ensures e.CronRead? ==> |Step(t, e).crons| == |t.crons| + 1
  {
    hide Once, StoredRows;
    if e.CronNext? && e.cron < |t.crons| && t.crons[e.cron].todo != [] {
      OnceLaunches(t, t.crons[e.cron].todo[0]);
    }
    hide Launches;
  }

  lemma {:induction false} StoredRowsAreStored(t: Sys, users: seq<User>)
    requires RowsOk(t)
    ensures forall row :: row in StoredRows(t, users) ==> IsFresh(t, row)
  {
    if users != [] {
      StoredRowsAreStored(t, users[1..]);
    }
  }

  /** What a caller holds is what was stored when it read. */
  lemma {:induction false} CallerHoldsWhatItRead(s: Sys, events: seq<Event>, r: nat, c: nat)
    requires Started(s) && CallerReadAt(s, events, r, c)
    ensures c < |Run(s, events).callers|
    ensures var at := Run(s, events).callers[c].at;
      !at.Reading? && (at.HasRow? && at.row.Some? ==> IsFresh(At(s, events, r), at.row.value))
  {
    hide Step, Run;
    var init, e := events[..|events| - 1], events[|events| - 1];
    AtLast(s, events);
    CallerStep(Run(s, init), e, c);
    if r < |init| {
      assert CallerReadAt(s, init, r, c);
      CallerHoldsWhatItRead(s, init, r, c);
    } else {
      RunKeeps(s, init);
      StoredIsFresh(Run(s, init));
    }
  }

  lemma StoredIsFresh(t: Sys)
    requires Inv(t)
    ensures forall u :: u in t.rows ==> IsFresh(t, t.rows[u])
  {
  }

  /** What a cron has left to do is what was stored when it read. */
  lemma {:induction false} CronHoldsWhatItRead(s: Sys, events: seq<Event>, r: nat, k: nat)
    requires Started(s) && CronReadAt(s, events, r, k)
    ensures k < |Run(s, events).crons|
    ensures forall row :: row in Run(s, events).crons[k].todo ==> IsFresh(At(s, events, r), row)
  {
    hide Step, Run;
    var init, e := events[..|events| - 1], events[|events| - 1];
    AtLast(s, events);
    CronStep(Run(s, init), e, k);
    if r < |init| {
      assert CronReadAt(s, init, r, k);
      CronHoldsWhatItRead(s, init, r, k);
    } else {
      RunKeeps(s, init);
      InvGivesRows(Run(s, init));
      StoredRowsAreStored(Run(s, init), e.users);
    }
  }

  lemma InvGivesRows(t: Sys)
    requires Inv(t)
    ensures RowsOk(t)
  {
  }

  lemma {:induction false} CallerHasRead(s: Sys, events: seq<Event>, c: nat)
    requires Started(s) && c < |Run(s, events).callers| && Run(s, events).callers[c].at.HasRow?
    ensures exists r :: CallerReadAt(s, events, r, c)
  {
    hide Step;
    if events != [] {
      var init, e := events[..|events| - 1], events[|events| - 1];
      AtLast(s, events);
      CallerStep(Run(s, init), e, c);
      if Run(s, init).callers[c].at.HasRow? {
        CallerHasRead(s, init, c);
        var r :| CallerReadAt(s, init, r, c);
        assert CallerReadAt(s, events, r, c);
      } else {
        assert CallerReadAt(s, events, |init|, c);
      }
    }
  }

  lemma {:induction false} CronHasRead(s: Sys, events: seq<Event>, k: nat)
    requires Started(s) && k < |Run(s, events).crons|
    ensures exists r :: CronReadAt(s, events, r, k)
  {
    hide Step;
    if events != [] {
      var init, e := events[..|events| - 1], events[|events| - 1];
      AtLast(s, events);
      CronStep(Run(s, init), e, k);
      if k < |Run(s, init).crons| {
        CronHasRead(s, init, k);
        var r :| CronReadAt(s, init, r, k);
        assert CronReadAt(s, events, r, k);
      } else {
        assert CronReadAt(s, events, |init|, k);
      }
    }
  }

  // ----- A row overtaken between its read and its use -----

  /** The event stores, or forgets, the outcome of a refresh that redeemed the token. */
  predicate Settles(t: Sys, e: Event, grant: nat) {
    && e.Persist? && e.flight < |t.flights|
    && t.flights[e.flight].row.grant == grant && Unsettled(t.flights[e.flight].phase)
  }

  /** A refresh of the user has redeemed the token and not been stored yet. */
  ghost predicate Pending(t: Sys, user: User, grant: nat) {
    && user in t.promises && t.promises[user] < |t.flights|
    && t.flights[t.promises[user]].row.grant == grant && Unsettled(t.flights[t.promises[user]].phase)
  }

  lemma StoredIsPending(t: Sys, row: Row)
    requires Inv(t) && IsFresh(t, row)
    ensures Owned(t, row.user, row.grant)
    ensures row.grant in t.spent ==> Pending(t, row.user, row.grant)
  {
  }

  lemma OwnedStays(t: Sys, e: Event, user: User, grant: nat)
    requires Owned(t, user, grant)
    ensures Owned(Step(t, e), user, grant)
  {
    hide Step;
    Frames(t, e);
  }

  lemma RedeemedIsPending(t: Sys, e: Event, user: User, grant: nat)
    requires Inv(t) && Owned(t, user, grant) && Redeems(t, e, grant)
    ensures Pending(Step(t, e), user, grant)
  {
    hide CallersOk, CallbacksOk, CacheOk, SpentOk;
    var f := e.flight;
    assert Known(t, t.flights[f].row);
    assert t.promises[user] == f;
  }

  lemma PendingStays(t: Sys, e: Event, user: User, grant: nat)
    requires Inv(t) && Pending(t, user, grant)
    ensures Pending(Step(t, e), user, grant) || Settles(t, e, grant)
  {
    hide CallersOk, CallbacksOk, CacheOk, SpentOk, RowsOk, HistoryOk, FlightsOk, Step, Redeems;
    Frames(t, e);
    if ByFlight(e) {
      FlightFrame(t, e);
    } else if ByServer(e) {
      ServerFrame(t, e);
    }
  }

  ghost predicate Overtaken(s: Sys, events: seq<Event>, r: nat, grant: nat) {
    exists p :: r < p < |events| && Settles(At(s, events, p), events[p], grant)
  }

  /** From a read on: the token is not spent, or its refresh is unfinished, or it was overtaken. */
  lemma {:induction false} SpentIsOvertaken(s: Sys, events: seq<Event>, r: nat, row: Row)
    requires Started(s) && r < |events| && !events[r].Persist? && IsFresh(At(s, events, r), row)
    ensures Owned(Run(s, events), row.user, row.grant)
    ensures row.grant in Run(s, events).spent ==>
      Pending(Run(s, events), row.user, row.grant) || Overtaken(s, events, r, row.grant)
  {
    hide Step, Run, Inv, Pending, Settles, Owned, Redeems;
    var init, e := events[..|events| - 1], events[|events| - 1];
    var t := Run(s, init);
    AtLast(s, events);
    RunKeeps(s, init);
    if r < |init| {
      SpentIsOvertaken(s, init, r, row);
    } else {
      StoredIsPending(t, row);
      NotASettling(t, e, row.grant);
    }
    OwnedStays(t, e, row.user, row.grant);
    StepSpends(t, e, row.grant);
    if Redeems(t, e, row.grant) {
      RedeemedIsPending(t, e, row.user, row.grant);
    }
    if Pending(t, row.user, row.grant) {
      PendingStays(t, e, row.user, row.grant);
    }
    OvertakenStays(s, events, r, row.grant);
  }

  lemma NotASettling(t: Sys, e: Event, grant: nat)
    requires !e.Persist?
    ensures !Settles(t, e, grant)
  {
  }

  lemma OvertakenStays(s: Sys, events: seq<Event>, r: nat, grant: nat)
    requires events != []
    ensures var init := events[..|events| - 1];
      Overtaken(s, events, r, grant)
      <==> Overtaken(s, init, r, grant) || (r < |init| && Settles(Run(s, init), events[|init|], grant))
  {
    hide Run, Settles;
    AtLast(s, events);
    var init := events[..|events| - 1];
    if Overtaken(s, init, r, grant) {
      var p :| r < p < |init| && Settles(At(s, init, p), init[p], grant);
      assert Settles(At(s, events, p), events[p], grant);
    }
    if Overtaken(s, events, r, grant) {
      var p :| r < p < |events| && Settles(At(s, events, p), events[p], grant);
      assert p < |init| ==> Settles(At(s, init, p), init[p], grant);
    }
  }

  /** A refresh that redeemed its token has spent it. */
  ghost predicate UnsettledSpent(t: Sys) {
    forall f :: 0 <= f < |t.flights| && Unsettled(t.flights[f].phase) ==> t.flights[f].row.grant in t.spent
  }

  lemma UnsettledStaysSpent(t: Sys, e: Event)
    requires UnsettledSpent(t)
    ensures UnsettledSpent(Step(t, e))
  {
    hide Step, Redeems;
    Frames(t, e);
    if ByFlight(e) {
      FlightFrame(t, e);
    } else if ByServer(e) {
      ServerFrame(t, e);
    }
  }

  lemma {:induction false} RunUnsettledSpent(s: Sys, events: seq<Event>)
    requires Started(s)
    ensures UnsettledSpent(Run(s, events))
  {
    hide Step;
    if events != [] {
      RunUnsettledSpent(s, events[..|events| - 1]);
      UnsettledStaysSpent(Run(s, events[..|events| - 1]), events[|events| - 1]);
    }
  }

  lemma {:induction false} OvertakenIsSpent(s: Sys, events: seq<Event>, r: nat, grant: nat)
    requires Started(s) && Overtaken(s, events, r, grant)
    ensures grant in Run(s, events).spent
  {
    hide Step, Run, Redeems, Settles;
    var init, e := events[..|events| - 1], events[|events| - 1];
    AtLast(s, events);
    OvertakenStays(s, events, r, grant);
    StepSpends(Run(s, init), e, grant);
    if Overtaken(s, init, r, grant) {
      OvertakenIsSpent(s, init, r, grant);
    } else {
      RunUnsettledSpent(s, init);
      SettledIsSpent(Run(s, init), e, grant);
    }
  }

  lemma SettledIsSpent(t: Sys, e: Event, grant: nat)
    requires UnsettledSpent(t) && Settles(t, e, grant)
    ensures grant in t.spent
  {
  }

  /** Where the row that an event hands over came from: there was a read, and it was the stored row then. */
  lemma HandedWasRead(s: Sys, events: seq<Event>, e: Event)
    requires Started(s) && Handed(Run(s, events), e).Some?
    ensures exists r :: ReadAt(s, events, r, e)
    ensures forall r :: ReadAt(s, events, r, e) ==> IsFresh(At(s, events, r), Handed(Run(s, events), e).value)
  {
    hide Run, IsFresh;
    match e {
      case Resume(c, _) =>
        CallerHasRead(s, events, c);
        var r0 :| CallerReadAt(s, events, r0, c);
        assert ReadAt(s, events, r0, e);
        forall r | ReadAt(s, events, r, e) ensures IsFresh(At(s, events, r), Handed(Run(s, events), e).value) {
          CallerHoldsWhatItRead(s, events, r, c);
        }
      case CronNext(k) =>
        CronHasRead(s, events, k);
        var r0 :| CronReadAt(s, events, r0, k);
        assert ReadAt(s, events, r0, e);
        forall r | ReadAt(s, events, r, e) ensures IsFresh(At(s, events, r), Handed(Run(s, events), e).value) {
          CronHoldsWhatItRead(s, events, r, k);
        }
    }
  }

  lemma HandedIsNotPending(t: Sys, e: Event)
    requires Handed(t, e).Some?
    ensures !Pending(t, Handed(t, e).value.user, Handed(t, e).value.grant)
  {
  }

  /**
   * The exact condition on the caller's clock. Every row handed over was read at some event of the run, as
   * the row then stored. The hand-over sends a token already spent exactly when, after that read, the store
   * was told of a refresh that redeemed it.
   */
  lemma ResendsExactlyWhenOvertaken(s: Sys, events: seq<Event>, e: Event, r: nat)
    requires Started(s) && Handed(Run(s, events), e).Some? && ReadAt(s, events, r, e)
    ensures var t, row := Run(s, events), Handed(Run(s, events), e).value;
      && IsFresh(At(s, events, r), row)
      && Step(t, e).resent == if Overtaken(s, events, r, row.grant) then t.resent + {row.grant} else t.resent
  {
    hide Run, Step, Handed, IsFresh, Overtaken, Pending;
    var t, row := Run(s, events), Handed(Run(s, events), e).value;
    HandedWasRead(s, events, e);
    SpentIsOvertaken(s, events, r, row);
    HandedIsNotPending(t, e);
    ResentExactly(t, e);
    if Overtaken(s, events, r, row.grant) {
      OvertakenIsSpent(s, events, r, row.grant);
    }
  }

  // ----- Deleting a connection that is alive -----

  /** A refused refresh, or one answered without a replacement token: its row is about to be forgotten. */
  predicate Forgets(t: Sys, f: nat) {
    && f < |t.flights| && t.flights[f].phase.Answered?
    && (t.flights[f].phase.reply.Dead? || t.flights[f].phase.reply.Partial?)
  }

  /** The user had a connection under another token, still good at the server, and now has none. */
  predicate LosesLiveRow(t: Sys, after: Sys, user: User, refused: nat) {
    user in t.rows && user !in after.rows && t.rows[user].grant != refused && t.rows[user].grant !in t.spent
  }

  /** The guard the service could test before it deletes: the row under this id now holds another token. */
  predicate HoldsAnother(t: Sys, row: Row) {
    row.user in t.rows && t.rows[row.user].id == row.id && t.rows[row.user].grant != row.grant
  }

  lemma ForgettingDeletesExactly(t: Sys, f: nat, now: int)
    requires Inv(t) && Forgets(t, f)
    ensures var row, after := t.flights[f].row, Step(t, Persist(f, now));
      && (LosesLiveRow(t, after, row.user, row.grant) <==> HoldsAnother(t, row))
      && (forall u :: u in t.rows && u != row.user ==> u in after.rows && after.rows[u] == t.rows[u])
  {
    hide Inv, DeleteRow;
    OtherGrantIsLive(t, f);
    FlightDeletesOwnRow(t, f);
  }

  lemma OtherGrantIsLive(t: Sys, f: nat)
    requires Inv(t) && Forgets(t, f)
    ensures var row := t.flights[f].row;
      row.user in t.rows && t.rows[row.user].grant != row.grant ==> t.rows[row.user].grant !in t.spent
  {
    hide CallersOk, CallbacksOk, CacheOk;
    assert Known(t, t.flights[f].row);
  }

  /**
   * Over every run, a refusal that is handled deletes a live connection exactly when the row under the
   * refused row's id has come to hold another token; no other user's row is touched.
   */
  lemma RefusalDeletesLiveRowExactly(s: Sys, events: seq<Event>, f: nat, now: int)
    requires Started(s) && Forgets(Run(s, events), f)
    ensures var t := Run(s, events);
      var row, after := t.flights[f].row, Step(t, Persist(f, now));
      && (LosesLiveRow(t, after, row.user, row.grant) <==> HoldsAnother(t, row))
      && (forall u :: u in t.rows && u != row.user ==> u in after.rows && after.rows[u] == t.rows[u])
  {
    hide Run, Step, Inv;
    RunKeeps(s, events);
    ForgettingDeletesExactly(Run(s, events), f, now);
  }

  /** A reconnect whose answer has no refresh token is about to forget the row it found. */
  predicate CallbackForgets(t: Sys, k: nat) {
    k < |t.callbacks| && t.callbacks[k].at.FoundRow? && t.callbacks[k].at.reply.Partial?
  }

  /**
   * A reconnect answered without a refresh token deletes a connection that is still good exactly when the
   * row it found is still there and no refresh of it has been taken by the server and not stored yet.
   */
  lemma PartialReconnectDeletesExactly(s: Sys, events: seq<Event>, k: nat, now: int, freshId: int)
    requires Started(s) && CallbackForgets(Run(s, events), k)
    ensures var t := Run(s, events);
      var user, after := t.callbacks[k].user, Step(t, CallbackPersist(k, now, freshId));
      && (user in t.rows && user !in after.rows && t.rows[user].grant !in t.spent
          <==> user in t.rows && t.callbacks[k].at.existing == Some(t.rows[user].id)
               && !Pending(t, user, t.rows[user].grant))
      && (forall u :: u in t.rows && u != user ==> u in after.rows && after.rows[u] == t.rows[u])
  {
    var t := Run(s, events);
    hide Run, Inv;
    RunKeeps(s, events);
    RunUnsettledSpent(s, events);
    if t.callbacks[k].user in t.rows {
      StoredIsFresh(t);
      SpentIsPending(t, t.rows[t.callbacks[k].user]);
    }
    PartialReconnectDeletes(t, k, now, freshId);
    hide Step, Pending;
  }

  /** A stored refresh token is spent exactly when a refresh has redeemed it and not been stored yet. */
  lemma SpentIsPending(t: Sys, row: Row)
    requires Inv(t) && UnsettledSpent(t) && IsFresh(t, row)
    ensures row.grant in t.spent <==> Pending(t, row.user, row.grant)
  {
    StoredIsPending(t, row);
    hide Inv;
  }

  lemma PartialReconnectDeletes(t: Sys, k: nat, now: int, freshId: int)
    requires Inv(t) && CallbackForgets(t, k)
    ensures var user, after := t.callbacks[k].user, Step(t, CallbackPersist(k, now, freshId));
      && (user in t.rows && user !in after.rows
          <==> user in t.rows && t.callbacks[k].at.existing == Some(t.rows[user].id))
      && (forall u :: u in t.rows && u != user ==> u in after.rows && after.rows[u] == t.rows[u])
  {
    CallbackHolds(t, k);
    if t.callbacks[k].at.existing.Some? {
      DeletesOwnRow(t, t.callbacks[k].user, t.callbacks[k].at.existing.value);
    }
    hide Inv, DeleteRow;
  }
}
