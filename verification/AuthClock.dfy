/**
 * The clock of the refresh protocol: a grant expires once, and whoever is answered without a refresh, or passed
 * over by the cron, has a grant that is good for long enough.
 */
module AuthClock {
  import opened Auth
  import opened AuthSafety
  import opened AuthStale
  import opened AuthTimes
  import opened Seqs

  // ----- A grant expires once -----

  /** How far a flight or a callback has come. */
  function Rank(phase: Phase): nat {
    match phase
    case Sent => 0
    case Answered(_) => 1
    case Saved(_, _) => 2
    case Deleted => 2
    case Settled(_) => 3
    case Done(_) => 4
  }

  function CallbackRank(at: CallbackAt): nat {
    match at
    case CodeSent => 0
    case CodeAnswered(_) => 1
    case FoundRow(_, _) => 2
    case RowSaved(_, _) => 3
    case RowDeleted => 3
    case Finished => 4
  }

  /** Nothing of the history is forgotten, and nobody goes back. */
  ghost predicate Forward(t: Sys, u: Sys) {
    && t.holders <= u.holders && t.homes.Keys <= u.homes.Keys
    && |t.flights| <= |u.flights| && |t.callbacks| <= |u.callbacks|
    && (forall f :: 0 <= f < |t.flights| ==> Rank(t.flights[f].phase) <= Rank(u.flights[f].phase))
    && (forall k :: 0 <= k < |t.callbacks| ==> CallbackRank(t.callbacks[k].at) <= CallbackRank(u.callbacks[k].at))
  }

  lemma OnceGoesForward(t: Sys, row: Row)
    ensures Forward(t, Once(t, row).0)
  {
  }

  lemma CallerGoesForward(t: Sys, e: Event)
    requires ByCaller(e)
    ensures Forward(t, Step(t, e))
  {
    hide Once, Rank, CallbackRank;
    if e.Resume? && e.caller < |t.callers| && t.callers[e.caller].at.HasRow? && t.callers[e.caller].at.row.Some? {
      OnceGoesForward(t, t.callers[e.caller].at.row.value);
    }
  }

  lemma CronGoesForward(t: Sys, e: Event)
    requires ByCron(e)
    ensures Forward(t, Step(t, e))
  {
    hide Once, StoredRows, Rank, CallbackRank;
    if e.CronNext? && e.cron < |t.crons| && t.crons[e.cron].todo != [] {
      OnceGoesForward(t, t.crons[e.cron].todo[0]);
    }
  }

  /** A step that sets one flight, or one callback, on a system with the same ones. */
  ghost predicate SameFlights(t: Sys, u: Sys) {
    u.flights == t.flights && u.callbacks == t.callbacks && t.holders <= u.holders && t.homes.Keys <= u.homes.Keys
  }

  lemma FlightForward(t: Sys, u: Sys, f: nat, phase: Phase)
    requires SameFlights(t, u) && f < |t.flights| && Rank(t.flights[f].phase) <= Rank(phase)
    ensures Forward(t, SetFlight(u, f, phase))
  {
    hide Rank, CallbackRank;
  }

  lemma CallbackForward(t: Sys, u: Sys, k: nat, at: CallbackAt)
    requires SameFlights(t, u) && k < |t.callbacks| && CallbackRank(t.callbacks[k].at) <= CallbackRank(at)
    ensures Forward(t, SetCallback(u, k, at))
  {
    hide Rank, CallbackRank;
  }

  lemma StaysForward(t: Sys)
    ensures Forward(t, t)
  {
  }

  lemma ServerGoesForward(t: Sys, e: Event)
    requires ByServer(e)
    ensures Forward(t, Step(t, e))
  {
    hide Forward, SetFlight;
    StaysForward(t);
    var f := e.flight;
    if f < |t.flights| && t.flights[f].phase.Sent? {
      var spent := t.(spent := t.spent + {t.flights[f].row.grant});
      var issued := Issue(t, t.flights[f].row.user, FlightOf(f)).(spent := spent.spent);
      match e {
        case Accept(_, x) => FlightForward(t, issued, f, Answered(Tokens(|t.owners|, x)));
        case AcceptPartial(_) => FlightForward(t, spent, f, Answered(Partial));
        case Reject(_) => FlightForward(t, t, f, Answered(Dead));
        case FailCall(_) => FlightForward(t, t, f, Answered(Failed));
      }
    }
  }

  lemma StoreGoesForward(t: Sys, f: nat, g: nat, at: int)
    requires f < |t.flights| && t.flights[f].phase.Answered?
    ensures Forward(t, StoreByFlight(t, f, g, at))
  {
    hide Forward, SetFlight, SaveRow;
    var row := t.flights[f].row;
    match SaveRow(t.rows, Row(row.id, row.user, g, at)) {
      case None => FlightForward(t, t, f, Settled(None));
      case Some(rows) =>
        var u := t.(rows := rows, homes := t.homes[g := row.id], ids := t.ids[row.id := row.user]);
        FlightForward(t, u, f, Saved(g, at));
    }
  }

  lemma PersistGoesForward(t: Sys, e: Event)
    requires e.Persist?
    ensures Forward(t, Step(t, e))
  {
    hide Forward, SetFlight, StoreByFlight, DeleteRow;
    StaysForward(t);
    var f := e.flight;
    if f < |t.flights| && t.flights[f].phase.Answered? {
      match t.flights[f].phase.reply {
        case Tokens(g, x) => StoreGoesForward(t, f, g, e.now + x * 1000);
        case Failed => FlightForward(t, t, f, Settled(None));
        case _ => FlightForward(t, t.(rows := DeleteRow(t.rows, t.flights[f].row.id)), f, Deleted);
      }
    }
  }

  lemma FlightGoesForward(t: Sys, e: Event)
    requires e.UpdateCache? || e.Finally?
    ensures Forward(t, Step(t, e))
  {
    hide Forward, SetFlight;
    StaysForward(t);
    var f := e.flight;
    if f < |t.flights| {
      var user := t.flights[f].row.user;
      match t.flights[f].phase {
        case Saved(g, at) => FlightForward(t, t.(cache := t.cache[user := CacheEntry(g, at)]), f, Settled(Some(g)));
        case Deleted => FlightForward(t, t.(cache := t.cache - {user}), f, Settled(None));
        case Settled(result) => FlightForward(t, t.(promises := t.promises - {user}), f, Done(result));
        case _ =>
      }
    }
  }

  lemma CallbackStoreGoesForward(t: Sys, k: nat, existing: Option<int>, row: Row)
    requires k < |t.callbacks| && t.callbacks[k].at.FoundRow?
    ensures Forward(t, StoreByCallback(t, k, existing, row))
  {
    hide Forward, SetCallback, SaveRow;
    CallbackForward(t, t, k, Finished);
    match SaveRow(t.rows, row) {
      case None =>
      case Some(rows) =>
        var u := t.(rows := rows, homes := t.homes[row.grant := row.id], ids := t.ids[row.id := row.user]);
        CallbackForward(t, u, k, RowSaved(row.grant, row.accessExpires));
    }
  }

  lemma CallbackPersistGoesForward(t: Sys, e: Event)
    requires e.CallbackPersist?
    ensures Forward(t, Step(t, e))
  {
    hide Forward, SetCallback, StoreByCallback, DeleteRow;
    StaysForward(t);
    var k := e.callback;
    if k < |t.callbacks| && t.callbacks[k].at.FoundRow? {
      var existing := t.callbacks[k].at.existing;
      match t.callbacks[k].at.reply {
        case Tokens(g, x) =>
          var id := if existing.Some? then existing.value else e.freshId;
          CallbackStoreGoesForward(t, k, existing, Row(id, t.callbacks[k].user, g, e.now + x * 1000));
        case _ =>
          CallbackForward(t, t, k, Finished);
          if existing.Some? {
            CallbackForward(t, t.(rows := DeleteRow(t.rows, existing.value)), k, RowDeleted);
          }
      }
    }
  }

  lemma CallbackGoesForward(t: Sys, e: Event)
    requires ByCallback(e) && !e.CallbackPersist? && !e.CallbackStart?
    ensures Forward(t, Step(t, e))
  {
    hide Forward, SetCallback;
    StaysForward(t);
    var k := e.callback;
    if k < |t.callbacks| {
      var user := t.callbacks[k].user;
      match t.callbacks[k].at {
        case CodeSent =>
          CallbackForward(t, t, k, CodeAnswered(Partial));
          CallbackForward(t, t, k, Finished);
          if e.GrantCode? {
            CallbackForward(t, Issue(t, user, CallbackOf(k)), k, CodeAnswered(Tokens(|t.owners|, e.expiresIn)));
          }
        case CodeAnswered(reply) =>
          CallbackForward(t, t, k, FoundRow(if user in t.rows then Some(t.rows[user].id) else None, reply));
        case RowSaved(g, at) => CallbackForward(t, t.(cache := t.cache[user := CacheEntry(g, at)]), k, Finished);
        case RowDeleted => CallbackForward(t, t.(cache := t.cache - {user}), k, Finished);
        case _ =>
      }
    }
  }

  lemma StartGoesForward(t: Sys, user: User)
    ensures Forward(t, DoCallbackStart(t, user))
  {
    hide Rank, CallbackRank;
  }

  lemma StepGoesForward(t: Sys, e: Event)
    ensures Forward(t, Step(t, e))
  {
    hide Forward;
    if e.Persist? {
      PersistGoesForward(t, e);
    } else if ByFlight(e) {
      FlightGoesForward(t, e);
    } else if ByServer(e) {
      ServerGoesForward(t, e);
    } else if e.CallbackStart? {
      StartGoesForward(t, e.user);
    } else if e.CallbackPersist? {
      CallbackPersistGoesForward(t, e);
    } else if ByCallback(e) {
      CallbackGoesForward(t, e);
    } else if ByCron(e) {
      CronGoesForward(t, e);
    } else {
      CallerGoesForward(t, e);
    }
  }

  /** The grant is stored under its id, or its holder is past storing it. */
  ghost predicate Used(t: Sys, grant: nat) {
    grant < |t.holders| &&
    (grant in t.homes
     || match t.holders[grant]
        case FlightOf(f) => f < |t.flights| && Rank(t.flights[f].phase) >= 2
        case CallbackOf(k) => k < |t.callbacks| && CallbackRank(t.callbacks[k].at) >= 3
        case Earlier => false)
  }

  lemma UsedStays(t: Sys, e: Event, grant: nat)
    requires Used(t, grant)
    ensures Used(Step(t, e), grant)
  {
    hide Step, Rank, CallbackRank;
    StepGoesForward(t, e);
  }

  lemma TakenIsNotUsed(t: Sys, e: Event, grant: nat, clock: int)
    requires Inv(t) && Takes(t, e, grant, clock)
    ensures !Used(t, grant)
  {
    if e.Persist? {
      FlightHolds(t, e.flight);
    } else {
      CallbackHolds(t, e.callback);
    }
    hide Inv;
  }

  lemma TakenIsUsed(t: Sys, e: Event, grant: nat, clock: int)
    requires Inv(t) && Takes(t, e, grant, clock)
    ensures Used(Step(t, e), grant)
  {
    hide DeleteRow, SaveRow;
    if e.Persist? {
      FlightHolds(t, e.flight);
    } else {
      CallbackHolds(t, e.callback);
    }
    hide Inv;
  }

  lemma {:induction false} UsedOverRun(s: Sys, events: seq<Event>, i: nat, grant: nat)
    requires i <= |events| && Used(At(s, events, i), grant)
    ensures Used(Run(s, events), grant)
  {
    hide Used, Step;
    if i == |events| {
      assert events[..i] == events;
    } else {
      var init := events[..|events| - 1];
      AtLast(s, events);
      assert init[..i] == events[..i];
      UsedOverRun(s, init, i, grant);
      UsedStays(Run(s, init), events[|events| - 1], grant);
    }
  }

  lemma TakenOnce(s: Sys, events: seq<Event>, i: nat, j: nat, grant: nat, a: int, b: int)
    requires Started(s) && TakenAt(s, events, i, grant, a) && TakenAt(s, events, j, grant, b)
    ensures i == j && a == b
  {
    if i < j {
      TakenInOrder(s, events, i, j, grant, a, b);
    } else if j < i {
      TakenInOrder(s, events, j, i, grant, b, a);
    }
  }

  lemma TakenInOrder(s: Sys, events: seq<Event>, i: nat, j: nat, grant: nat, a: int, b: int)
    requires Started(s) && i < j < |events| && TakenAt(s, events, i, grant, a)
    ensures !TakenAt(s, events, j, grant, b)
  {
    hide Used, Takes, Run, Step, Inv;
    RunKeeps(s, events[..i]);
    RunKeeps(s, events[..j]);
    TakenIsUsed(At(s, events, i), events[i], grant, a);
    assert events[..i + 1][..i] == events[..i] && events[..j][..i + 1] == events[..i + 1];
    RunLast(s, events[..i + 1]);
    UsedOverRun(s, events[..j], i + 1, grant);
    if TakenAt(s, events, j, grant, b) {
      TakenIsNotUsed(At(s, events, j), events[j], grant, b);
    }
  }

  lemma {:induction false} OwnersGrow(s: Sys, events: seq<Event>, i: nat)
    requires i <= |events|
    ensures |At(s, events, i).owners| <= |Run(s, events).owners|
  {
    hide Step;
    if i == |events| {
      assert events[..i] == events;
    } else {
      var init := events[..|events| - 1];
      AtLast(s, events);
      assert init[..i] == events[..i];
      OwnersGrow(s, init, i);
      Frames(Run(s, init), events[|events| - 1]);
    }
  }

  lemma IssueGrows(t: Sys, e: Event, grant: nat, x: int)
    requires Issues(t, e, grant, x)
    ensures |Step(t, e).owners| > grant == |t.owners|
  {
  }

  lemma IssuedInOrder(s: Sys, events: seq<Event>, i: nat, j: nat, grant: nat, x: int, y: int)
    requires i < j < |events| && Issues(At(s, events, i), events[i], grant, x)
    ensures !Issues(At(s, events, j), events[j], grant, y)
  {
    hide Issues, Run, Step;
    IssueGrows(At(s, events, i), events[i], grant, x);
    if Issues(At(s, events, j), events[j], grant, y) {
      IssueGrows(At(s, events, j), events[j], grant, y);
    }
    assert events[..i + 1][..i] == events[..i] && events[..j][..i + 1] == events[..i + 1];
    RunLast(s, events[..i + 1]);
    OwnersGrow(s, events[..j], i + 1);
  }

  lemma IssuedOnce(s: Sys, events: seq<Event>, grant: nat, x: int, y: int)
    requires Issued(s, events, grant, x) && Issued(s, events, grant, y)
    ensures x == y
  {
    hide Run;
    var i :| 0 <= i < |events| && Issues(At(s, events, i), events[i], grant, x);
    var j :| 0 <= j < |events| && Issues(At(s, events, j), events[j], grant, y);
    if i < j {
      IssuedInOrder(s, events, i, j, grant, x, y);
    } else if j < i {
      IssuedInOrder(s, events, j, i, grant, y, x);
    }
  }

  lemma StoredIsNotTaken(s: Sys, events: seq<Event>, user: User, grant: nat, at: int, i: nat, clock: int)
    requires Started(s) && StoredUntil(s, user, grant, at) && i < |events|
    ensures !TakenAt(s, events, i, grant, clock)
  {
    assert Known(s, s.rows[user]) && Used(s, grant);
    hide Used, Takes, Started, StoredUntil, Inv;
    assert events[..i][..0] == [];
    UsedOverRun(s, events[..i], 0, grant);
    RunKeeps(s, events[..i]);
    if TakenAt(s, events, i, grant, clock) {
      TakenIsNotUsed(At(s, events, i), events[i], grant, clock);
    }
  }

  /** Over every run a grant has at most one expiry. */
  lemma ExpiresOnce(s: Sys, events: seq<Event>, grant: nat, a: int, b: int)
    requires Started(s) && Expires(s, events, grant, a) && Expires(s, events, grant, b)
    ensures a == b
  {
    hide Run, Takes, Issued, Started;
    if i: nat, c, x :| TakenAt(s, events, i, grant, c) && Issued(s, events[..i], grant, x) && a == c + 1000 * x {
      if user :| StoredUntil(s, user, grant, b) {
        StoredIsNotTaken(s, events, user, grant, b, i, c);
      } else {
        var j: nat, d, y :| TakenAt(s, events, j, grant, d) && Issued(s, events[..j], grant, y) && b == d + 1000 * y;
        TakenOnce(s, events, i, j, grant, c, d);
        IssuedOnce(s, events[..i], grant, x, y);
      }
    } else {
      var user :| StoredUntil(s, user, grant, a);
      if j: nat, d, y :| TakenAt(s, events, j, grant, d) && Issued(s, events[..j], grant, y) && b == d + 1000 * y {
        StoredIsNotTaken(s, events, user, grant, a, j, d);
      } else {
        var other :| StoredUntil(s, other, grant, b);
        OneOwner(s, user, other, grant, a, b);
      }
    }
  }

  lemma OneOwner(s: Sys, user: User, other: User, grant: nat, a: int, b: int)
    requires Started(s) && StoredUntil(s, user, grant, a) && StoredUntil(s, other, grant, b)
    ensures a == b
  {
    assert Known(s, s.rows[user]) && Known(s, s.rows[other]);
  }

  // ----- What callers are answered with -----

  /** The grant's one expiry is later than the clock by more than the margin. */
  ghost predicate GoodFor(s: Sys, events: seq<Event>, grant: nat, now: int, margin: int) {
    && (exists at :: Expires(s, events, grant, at))
    && (forall at :: Expires(s, events, grant, at) ==> at - now > margin)
  }

  lemma GoodByExpiry(s: Sys, events: seq<Event>, grant: nat, at: int, now: int, margin: int)
    requires Started(s) && Expires(s, events, grant, at)
    ensures GoodFor(s, events, grant, now, margin) <==> at - now > margin
  {
    hide Expires, Started;
    forall other | Expires(s, events, grant, other) ensures other == at {
      ExpiresOnce(s, events, grant, at, other);
    }
  }

  /**
   * Over every run, a call is answered at once exactly when the user has a cached grant that has not expired, as
   * it was issued, and with that grant; otherwise it goes to the table.
   */
  lemma CallsGetUnexpiredGrants(s: Sys, events: seq<Event>, user: User, now: int)
    requires Started(s)
    ensures var t, c := Run(s, events), |Run(s, events).callers|;
      var u := Step(t, CallGet(user, now));
      && |u.callers| == c + 1 && u.callers[c].user == user && !u.callers[c].forced
      && (if user in t.cache && GoodFor(s, events, t.cache[user].grant, now, 0)
          then u.callers[c].at == Returned(Some(t.cache[user].grant))
          else u.callers[c].at == Reading)
  {
    RunDated(s, events);
    var t := Run(s, events);
    hide Run, Started, GoodFor;
    if user in t.cache {
      CacheIsDated(s, events, t, user);
      GoodByExpiry(s, events, t.cache[user].grant, t.cache[user].expiresAt, now, 0);
    }
    hide Expires;
  }

  lemma CacheIsDated(s: Sys, events: seq<Event>, t: Sys, user: User)
    requires Dated(t, IssuedBy(s, events), DatesBy(s, events)) && user in t.cache
    ensures Expires(s, events, t.cache[user].grant, t.cache[user].expiresAt)
  {
    hide Expires, Issued;
  }

  lemma ReadRowIsDated(s: Sys, events: seq<Event>, t: Sys, c: nat)
    requires Dated(t, IssuedBy(s, events), DatesBy(s, events))
    requires c < |t.callers| && t.callers[c].at.HasRow? && t.callers[c].at.row.Some?
    ensures var row := t.callers[c].at.row.value; Expires(s, events, row.grant, row.accessExpires)
  {
    hide Expires, Issued;
    assert CallerDated(t.callers[c].at, DatesBy(s, events));
  }

  /**
   * Over every run, a caller that has read the table is answered without a refresh exactly when it did not ask
   * for one and the grant it read is good for more than the buffer; then it gets that grant.
   */
  lemma ReadersGetGrantsBeyondTheBuffer(s: Sys, events: seq<Event>, c: nat, now: int)
    requires Started(s) && c < |Run(s, events).callers| && Run(s, events).callers[c].at.HasRow?
    ensures var t := Run(s, events);
      var u, row := Step(t, Resume(c, now)), t.callers[c].at.row;
      && c < |u.callers|
      && if row.None? then u.callers[c].at == Returned(None)
         else if !t.callers[c].forced && GoodFor(s, events, row.value.grant, now, t.bufferMs)
         then u.callers[c].at == Returned(Some(row.value.grant))
         else u.callers[c].at.Waiting?
  {
    RunDated(s, events);
    var t := Run(s, events);
    hide Run, Started, GoodFor;
    if t.callers[c].at.row.Some? {
      var row := t.callers[c].at.row.value;
      ReadRowIsDated(s, events, t, c);
      GoodByExpiry(s, events, row.grant, row.accessExpires, now, t.bufferMs);
    }
    hide Expires, Dated;
    ResumeActs(t, c, now);
    hide Step;
  }

  lemma ResumeActs(t: Sys, c: nat, now: int)
    requires c < |t.callers| && t.callers[c].at.HasRow?
    ensures var u, row := Step(t, Resume(c, now)), t.callers[c].at.row;
      && c < |u.callers|
      && if row.None? then u.callers[c].at == Returned(None)
         else if !t.callers[c].forced && row.value.accessExpires - now > t.bufferMs
         then u.callers[c].at == Returned(Some(row.value.grant))
         else u.callers[c].at.Waiting?
  {
    hide Once;
    if t.callers[c].at.row.Some? {
      OnceLaunches(t, t.callers[c].at.row.value);
    }
    hide Launches;
  }

  /** A forced caller's user has nothing cached any more. */
  lemma ForcingForgetsTheCache(t: Sys, user: User, now: int)
    ensures var u := Step(t, CallForce(user));
      && |u.callers| == |t.callers| + 1 && u.callers[|t.callers|] == Caller(user, true, Reading)
      && user !in u.cache && Step(u, CallGet(user, now)).callers[|u.callers|].at == Reading
  {
  }

  // ----- What the server takes -----

  /** A refresh token that was sent is taken exactly when it has not been taken before. */
  lemma ServerTakesUnspentTokens(t: Sys, f: nat, expiresIn: int)
    requires f < |t.flights| && t.flights[f].phase.Sent?
    ensures var u := Step(t, Accept(f, expiresIn));
      && f < |u.flights|
      && if t.flights[f].row.grant in t.spent then u == t
         else
           && u.flights[f].phase == Answered(Tokens(|t.owners|, expiresIn))
           && u.spent == t.spent + {t.flights[f].row.grant}
           && u.owners == t.owners + [t.flights[f].row.user]
  {
  }

  lemma {:induction false} SpentOverRun(s: Sys, events: seq<Event>, i: nat, grant: nat)
    requires i <= |events| && grant in At(s, events, i).spent
    ensures grant in Run(s, events).spent
  {
    hide Step, Redeems;
    if i == |events| {
      assert events[..i] == events;
    } else {
      var init := events[..|events| - 1];
      AtLast(s, events);
      assert init[..i] == events[..i];
      SpentOverRun(s, init, i, grant);
      StepSpends(Run(s, init), events[|events| - 1], grant);
    }
  }

  lemma RedeemingNeedsUnspent(t: Sys, e: Event, grant: nat)
    requires Redeems(t, e, grant)
    ensures grant !in t.spent
  {
  }

  /** Over every run no refresh token is redeemed twice. */
  lemma RedeemedOnce(s: Sys, events: seq<Event>, i: nat, j: nat, grant: nat)
    requires i < j < |events| && Redeems(At(s, events, i), events[i], grant)
    ensures !Redeems(At(s, events, j), events[j], grant)
  {
    hide Redeems, Run, Step;
    StepSpends(At(s, events, i), events[i], grant);
    assert events[..i + 1][..i] == events[..i] && events[..j][..i + 1] == events[..i + 1];
    RunLast(s, events[..i + 1]);
    SpentOverRun(s, events[..j], i + 1, grant);
    if Redeems(At(s, events, j), events[j], grant) {
      RedeemingNeedsUnspent(At(s, events, j), events[j], grant);
    }
  }

  // ----- What the table keeps -----

  lemma FlightSaves(t: Sys, f: nat, now: int)
    requires Inv(t) && f < |t.flights| && t.flights[f].phase.Answered? && t.flights[f].phase.reply.Tokens?
    ensures var row, g := t.flights[f].row, t.flights[f].phase.reply.grant;
      var after := Step(t, Persist(f, now)).rows;
      var saved := Row(row.id, row.user, g, now + t.flights[f].phase.reply.expiresIn * 1000);
      after == if row.user in t.rows && t.rows[row.user].id != row.id then t.rows else t.rows[row.user := saved]
  {
    var row, g := t.flights[f].row, t.flights[f].phase.reply.grant;
    assert Known(t, row);
    if row.user in t.rows ==> t.rows[row.user].id == row.id {
      SavesOwnRow(t, Row(row.id, row.user, g, now + t.flights[f].phase.reply.expiresIn * 1000));
    }
    hide Inv, DeleteRow;
  }

  lemma CallbackSavesRow(t: Sys, k: nat, now: int, freshId: int)
    requires Inv(t) && k < |t.callbacks| && t.callbacks[k].at.FoundRow? && t.callbacks[k].at.reply.Tokens?
    requires t.callbacks[k].at.existing.Some? || freshId !in t.ids
    ensures var user, found, reply := t.callbacks[k].user, t.callbacks[k].at.existing, t.callbacks[k].at.reply;
      var after := Step(t, CallbackPersist(k, now, freshId)).rows;
      var id := if found.Some? then found.value else freshId;
      var saved := Row(id, user, reply.grant, now + reply.expiresIn * 1000);
      after == if user in t.rows && Some(t.rows[user].id) != found then t.rows else t.rows[user := saved]
  {
    CallbackHolds(t, k);
    var user, found, reply := t.callbacks[k].user, t.callbacks[k].at.existing, t.callbacks[k].at.reply;
    var id := if found.Some? then found.value else freshId;
    if user in t.rows ==> t.rows[user].id == id {
      SavesOwnRow(t, Row(id, user, reply.grant, now + reply.expiresIn * 1000));
    }
    hide Inv, DeleteRow, StoreByCallback;
    StoreSetsRow(t, k, found, Row(id, user, reply.grant, now + reply.expiresIn * 1000));
  }

  lemma StoreSetsRow(t: Sys, k: nat, found: Option<int>, row: Row)
    requires k < |t.callbacks| && (found.Some? ==> found.value == row.id)
    requires (row.user in t.rows ==> t.rows[row.user].id == row.id) ==>
      SaveRow(t.rows, row) == Some(t.rows[row.user := row])
    ensures StoreByCallback(t, k, found, row).rows
         == if row.user in t.rows && Some(t.rows[row.user].id) != found then t.rows else t.rows[row.user := row]
  {
  }

  /** Whose row the answer is to be stored as, and under which id. */
  predicate IsFor(t: Sys, e: Event, user: User, id: int) {
    match e
    case Persist(f, _) => f < |t.flights| && user == t.flights[f].row.user && id == t.flights[f].row.id
    case CallbackPersist(k, _, freshId) =>
      && k < |t.callbacks| && t.callbacks[k].at.FoundRow? && user == t.callbacks[k].user
      && id == if t.callbacks[k].at.existing.Some? then t.callbacks[k].at.existing.value else freshId
    case _ => false
  }

  /**
   * Over every run the answer to a refresh is stored under the refreshed row's id, and that of a connection under
   * the id it found or a new one, each with the grant's one expiry, exactly unless the user has come to have a
   * row under another id; nobody else's row is touched.
   */
  lemma AnswersAreStoredExactly(s: Sys, events: seq<Event>, e: Event, user: User, id: int, grant: nat, now: int)
    requires Started(s) && Takes(Run(s, events), e, grant, now)
    requires IsFor(Run(s, events), e, user, id)
    ensures var t, after := Run(s, events), Step(Run(s, events), e);
      && (forall u :: u != user ==> (u in after.rows <==> u in t.rows) && (u in t.rows ==> after.rows[u] == t.rows[u]))
      && if user in t.rows && !FoundAs(t, e, t.rows[user].id) then after.rows == t.rows
         else
           && user in after.rows && after.rows[user].id == id && after.rows[user].grant == grant
           && GoodUntil(s, events + [e], grant, after.rows[user].accessExpires)
  {
    var t := Run(s, events);
    var all := events + [e];
    assert all[..|all| - 1] == events;
    RunKeeps(s, events);
    RunDated(s, all);
    RunLast(s, all);
    hide Run, Inv, Started, DeleteRow, SaveRow, StoreByFlight, StoreByCallback;
    if e.Persist? {
      FlightSaves(t, e.flight, e.now);
    } else {
      CallbackSavesRow(t, e.callback, e.now, e.freshId);
    }
    hide Step;
    if user in Step(t, e).rows {
      RowIsDated(s, all, Step(t, e), user);
      OnlyExpiry(s, all, Step(t, e).rows[user]);
    }
    hide Dated, GoodUntil;
  }

  /** The row the answer is meant for has this id. */
  predicate FoundAs(t: Sys, e: Event, id: int) {
    match e
    case Persist(f, _) => f < |t.flights| && t.flights[f].row.id == id
    case CallbackPersist(k, _, _) =>
      k < |t.callbacks| && t.callbacks[k].at.FoundRow? && t.callbacks[k].at.existing == Some(id)
    case _ => false
  }

  /** The grant's one expiry. */
  ghost predicate GoodUntil(s: Sys, events: seq<Event>, grant: nat, at: int) {
    Expires(s, events, grant, at) && forall other :: Expires(s, events, grant, other) ==> other == at
  }

  lemma RowIsDated(s: Sys, events: seq<Event>, t: Sys, user: User)
    requires Dated(t, IssuedBy(s, events), DatesBy(s, events)) && user in t.rows
    ensures Expires(s, events, t.rows[user].grant, t.rows[user].accessExpires)
  {
    hide Expires, Issued;
    assert RowDated(t.rows[user], DatesBy(s, events));
  }

  lemma OnlyExpiry(s: Sys, events: seq<Event>, row: Row)
    requires Started(s) && Expires(s, events, row.grant, row.accessExpires)
    ensures GoodUntil(s, events, row.grant, row.accessExpires)
  {
    hide Expires, Started;
    forall other | Expires(s, events, row.grant, other) ensures other == row.accessExpires {
      ExpiresOnce(s, events, row.grant, row.accessExpires, other);
    }
  }

  // ----- The cron -----

  /** The rows that are left to a cron, out of those it read. */
  predicate LeftOf(todo: seq<Row>, list: seq<Row>) {
    |todo| <= |list| && todo == list[|list| - |todo|..]
  }

  lemma LeftOfTail(todo: seq<Row>, list: seq<Row>)
    requires LeftOf(todo, list) && todo != []
    ensures LeftOf(todo[1..], list)
  {
  }

  /** A cron keeps the clock it started by, and works off its list from the front. */
  predicate CronAdvances(t: Sys, u: Sys, k: nat)
    requires k < |t.crons|
  {
    && k < |u.crons| && u.crons[k].cutoff == t.crons[k].cutoff
    && (u.crons[k].todo == t.crons[k].todo
        || (t.crons[k].todo != [] && u.crons[k].todo == t.crons[k].todo[1..]))
  }

  lemma CronNextAdvances(t: Sys, e: Event, k: nat)
    requires e.CronNext? && k < |t.crons|
    ensures CronAdvances(t, Step(t, e), k)
  {
    hide Once;
    if e.cron < |t.crons| && t.crons[e.cron].todo != [] {
      OnceLaunches(t, t.crons[e.cron].todo[0]);
    }
    hide Launches;
  }

  lemma CronWakeAdvances(t: Sys, e: Event, k: nat)
    requires (e.CronWake? || e.CronRead?) && k < |t.crons|
    ensures CronAdvances(t, Step(t, e), k)
  {
    hide StoredRows;
  }

  lemma CronStepAdvances(t: Sys, e: Event, k: nat)
    requires k < |t.crons|
    ensures CronAdvances(t, Step(t, e), k)
  {
    hide Step, Launches;
    if e.CronNext? {
      CronNextAdvances(t, e, k);
    } else if ByCron(e) {
      CronWakeAdvances(t, e, k);
    } else {
      Frames(t, e);
    }
  }

  lemma CronStarts(t: Sys, e: Event)
    requires e.CronRead?
    ensures Step(t, e).crons == t.crons + [Cron(e.now + t.bufferMs, StoredRows(t, e.users), None)]
  {
    hide StoredRows;
  }

  /** What is left of a cron is the end of the list it read, judged by the clock it read it at. */
  lemma {:induction false} CronFollowsItsList(s: Sys, events: seq<Event>, r: nat, k: nat)
    requires CronReadAt(s, events, r, k)
    ensures k < |Run(s, events).crons|
    ensures var cron, read := Run(s, events).crons[k], At(s, events, r);
      && cron.cutoff == events[r].now + read.bufferMs && LeftOf(cron.todo, StoredRows(read, events[r].users))
  {
    hide Step, Run, StoredRows;
    var init, e := events[..|events| - 1], events[|events| - 1];
    AtLast(s, events);
    if r < |init| {
      assert CronReadAt(s, init, r, k);
      CronFollowsItsList(s, init, r, k);
      CronStepAdvances(Run(s, init), e, k);
    } else {
      CronStarts(Run(s, init), e);
    }
  }

  lemma {:induction false} ListHasEveryRow(t: Sys, users: seq<User>, user: User)
    requires user in users && user in t.rows
    ensures t.rows[user] in StoredRows(t, users)
  {
    if users[0] != user {
      ListHasEveryRow(t, users[1..], user);
    }
  }

  lemma CronRowIsDated(s: Sys, events: seq<Event>, t: Sys, k: nat, row: Row)
    requires Dated(t, IssuedBy(s, events), DatesBy(s, events)) && k < |t.crons| && row in t.crons[k].todo
    ensures Expires(s, events, row.grant, row.accessExpires)
  {
    hide Expires, Issued;
    assert RowDated(row, DatesBy(s, events));
  }

  /**
   * Over every run a cron takes up every row that was stored when it read, one by one, and passes one over
   * exactly when its grant was then good for more than the buffer; else it waits for a refresh of that user, and
   * goes on exactly when that has ended.
   */
  lemma CronRefreshesExactly(s: Sys, events: seq<Event>, r: nat, k: nat)
    requires Started(s) && CronReadAt(s, events, r, k)
    ensures k < |Run(s, events).crons|
    ensures var t, read, list := Run(s, events), At(s, events, r), StoredRows(At(s, events, r), events[r].users);
      && (forall user :: user in events[r].users && user in read.rows ==> read.rows[user] in list)
      && LeftOf(t.crons[k].todo, list)
      && (t.crons[k].waiting.None? && t.crons[k].todo != [] ==>
          var row, u := t.crons[k].todo[0], Step(t, CronNext(k));
          && k < |u.crons| && u.crons[k].todo == t.crons[k].todo[1..]
          && if GoodFor(s, events, row.grant, events[r].now, read.bufferMs) then u.crons[k].waiting.None?
             else
               && u.crons[k].waiting.Some? && u.crons[k].waiting.value < |u.flights|
               && u.flights[u.crons[k].waiting.value].row.user == row.user)
      && (t.crons[k].waiting.Some? ==>
          var f, u := t.crons[k].waiting.value, Step(t, CronWake(k));
          && k < |u.crons| && u.crons[k].todo == t.crons[k].todo
          && (u.crons[k].waiting.None? <==> f < |t.flights| && t.flights[f].phase.Done?))
  {
    var t, read := Run(s, events), At(s, events, r);
    RunDated(s, events);
    CronFollowsItsList(s, events, r, k);
    RunKeeps(s, events);
    hide Run, Started, GoodFor, StoredRows, Inv;
    forall user | user in events[r].users && user in read.rows
      ensures read.rows[user] in StoredRows(read, events[r].users)
    {
      ListHasEveryRow(read, events[r].users, user);
    }
    if t.crons[k].waiting.None? && t.crons[k].todo != [] {
      var row := t.crons[k].todo[0];
      CronRowIsDated(s, events, t, k, row);
      GoodByExpiry(s, events, row.grant, row.accessExpires, events[r].now, read.bufferMs);
      NextActs(t, k);
    }
    if t.crons[k].waiting.Some? {
      WakeActs(t, k);
    }
    hide Step, Expires, Dated, CronReadAt;
  }

  lemma WakeActs(t: Sys, k: nat)
    requires k < |t.crons| && t.crons[k].waiting.Some?
    ensures var f, u := t.crons[k].waiting.value, Step(t, CronWake(k));
      && k < |u.crons| && u.crons[k].todo == t.crons[k].todo
      && u.crons[k].waiting
         == if f < |t.flights| && t.flights[f].phase.Done? then None else t.crons[k].waiting
  {
  }

  lemma NextActs(t: Sys, k: nat)
    requires Inv(t) && k < |t.crons| && t.crons[k].waiting.None? && t.crons[k].todo != []
    ensures var row, u := t.crons[k].todo[0], Step(t, CronNext(k));
      && k < |u.crons| && u.crons[k].todo == t.crons[k].todo[1..]
      && if row.accessExpires > t.crons[k].cutoff then u.crons[k].waiting.None?
         else
           && u.crons[k].waiting.Some? && u.crons[k].waiting.value < |u.flights|
           && u.flights[u.crons[k].waiting.value].row.user == row.user
  {
    var row := t.crons[k].todo[0];
    assert Known(t, row);
    OnceKeeps(t, row);
    hide Inv, Once;
  }
}
