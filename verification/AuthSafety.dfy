/** Safety of the refresh protocol over every interleaving of callers, cron and callbacks. */
module AuthSafety {
  import opened Seqs
  import opened Auth

  // ----- The invariant -----

  predicate Owned(s: Sys, user: User, grant: nat) {
    grant < |s.owners| && s.owners[grant] == user
  }

  /** A row someone holds, now or from an earlier read: its grant was once saved under its id. */
  predicate Known(s: Sys, row: Row) {
    Owned(s, row.user, row.grant) && row.grant in s.homes && s.homes[row.grant] == row.id
  }

  /** A grant on its way to the store: only `holder` has it, nobody could have sent it. */
  predicate Unsaved(s: Sys, user: User, grant: nat, holder: Holder) {
    Owned(s, user, grant) && grant < |s.holders| && s.holders[grant] == holder
    && grant !in s.homes && grant !in s.spent
  }

  /** A grant the server issued to this flight. */
  predicate Received(s: Sys, user: User, grant: nat, i: nat) {
    Owned(s, user, grant) && grant < |s.holders| && s.holders[grant] == FlightOf(i)
  }

  ghost predicate HistoryOk(s: Sys) {
    && |s.holders| == |s.owners|
    && (forall g :: g in s.spent ==> g in s.homes)
    && (forall g :: g in s.homes ==>
        g < |s.owners| && s.homes[g] in s.ids && s.ids[s.homes[g]] == s.owners[g])
  }

  ghost predicate RowsOk(s: Sys) {
    forall u :: u in s.rows ==> s.rows[u].user == u && Known(s, s.rows[u])
  }

  ghost predicate CacheOk(s: Sys) {
    forall u :: u in s.cache ==> Owned(s, u, s.cache[u].grant)
  }

  /** `refreshPromises` lists exactly the flights that are not done, one a user. */
  ghost predicate PromisesOk(s: Sys) {
    && (forall u :: u in s.promises ==>
         s.promises[u] < |s.flights| && s.flights[s.promises[u]].row.user == u && !s.flights[s.promises[u]].phase.Done?)
    && (forall i :: 0 <= i < |s.flights| && !s.flights[i].phase.Done? ==>
         s.flights[i].row.user in s.promises && s.promises[s.flights[i].row.user] == i)
  }

  predicate PhaseOk(s: Sys, user: User, phase: Phase, i: nat) {
    match phase
    case Answered(Tokens(g, _)) => Unsaved(s, user, g, FlightOf(i))
    case Saved(g, _) => Received(s, user, g, i)
    case Settled(Some(g)) => Received(s, user, g, i)
    case Done(Some(g)) => Received(s, user, g, i)
    case _ => true
  }

  ghost predicate FlightsOk(s: Sys) {
    forall i :: 0 <= i < |s.flights| ==>
      Known(s, s.flights[i].row) && PhaseOk(s, s.flights[i].row.user, s.flights[i].phase, i)
  }

  predicate CallerOk(s: Sys, c: Caller) {
    match c.at
    case HasRow(Some(row)) => row.user == c.user && Known(s, row)
    case Waiting(f) => f < |s.flights| && s.flights[f].row.user == c.user
    case Returned(Some(g)) => Owned(s, c.user, g)
    case _ => true
  }

  ghost predicate CallersOk(s: Sys) {
    && (forall i :: 0 <= i < |s.callers| ==> CallerOk(s, s.callers[i]))
    && (forall k :: 0 <= k < |s.crons| ==> forall r :: r in s.crons[k].todo ==> Known(s, r))
  }

  /** The row id a callback found was made for its user. */
  predicate IdOk(s: Sys, user: User, id: Option<int>) {
    id.Some? ==> id.value in s.ids && s.ids[id.value] == user
  }

  predicate CallbackOk(s: Sys, c: Callback, k: nat) {
    match c.at
    case CodeAnswered(Tokens(g, _)) => Unsaved(s, c.user, g, CallbackOf(k))
    case FoundRow(existing, Tokens(g, _)) => Unsaved(s, c.user, g, CallbackOf(k)) && IdOk(s, c.user, existing)
    case FoundRow(existing, _) => IdOk(s, c.user, existing)
    case RowSaved(g, _) => Owned(s, c.user, g)
    case _ => true
  }

  ghost predicate CallbacksOk(s: Sys) {
    forall k :: 0 <= k < |s.callbacks| ==> CallbackOk(s, s.callbacks[k], k)
  }

  /** The server took this flight's token and the store has not yet been told. */
  predicate Unsettled(phase: Phase) {
    phase.Answered? && (phase.reply.Tokens? || phase.reply.Partial?)
  }

  /** A stored token that is spent is the one an unfinished refresh of that user just redeemed. */
  ghost predicate SpentOk(s: Sys) {
    forall u :: u in s.rows && s.rows[u].grant in s.spent ==>
      && u in s.promises && s.promises[u] < |s.flights|
      && s.flights[s.promises[u]].row.grant == s.rows[u].grant
      && Unsettled(s.flights[s.promises[u]].phase)
  }

  /** All but the last clause, which the two halves of a save break and restore. */
  ghost predicate Base(s: Sys) {
    && HistoryOk(s) && RowsOk(s) && CacheOk(s) && PromisesOk(s)
    && FlightsOk(s) && CallersOk(s) && CallbacksOk(s)
  }

  ghost predicate SpentOkBut(s: Sys, user: User) {
    SpentOk(s.(rows := s.rows - {user}))
  }

  ghost predicate Inv(s: Sys) {
    Base(s) && SpentOk(s)
  }

  // ----- One id, one user -----

  /** The system with a row saved and nothing else touched. */
  function Stored(s: Sys, row: Row): Sys {
    s.(rows := s.rows[row.user := row], homes := s.homes[row.grant := row.id], ids := s.ids[row.id := row.user])
  }

  /** The table with one user's row gone, if it has that id. */
  function Dropped(rows: map<User, Row>, user: User, id: int): map<User, Row> {
    if user in rows && rows[user].id == id then rows - {user} else rows
  }

  /** Deleting by id alone reaches only the user the id was made for. */
  lemma DeletesOwnRow(s: Sys, user: User, id: int)
    requires HistoryOk(s) && RowsOk(s) && (id in s.ids ==> s.ids[id] == user)
    ensures DeleteRow(s.rows, id) == Dropped(s.rows, user, id)
  {
    forall u | u in s.rows && s.rows[u].id == id ensures u == user {
      assert Known(s, s.rows[u]);
    }
  }

  lemma SavesOwnRow(s: Sys, row: Row)
    requires HistoryOk(s) && RowsOk(s) && (row.id in s.ids ==> s.ids[row.id] == row.user)
    requires row.user in s.rows ==> s.rows[row.user].id == row.id
    ensures SaveRow(s.rows, row) == Some(s.rows[row.user := row])
  {
    DeletesOwnRow(s, row.user, row.id);
    assert Dropped(s.rows, row.user, row.id)[row.user := row] == s.rows[row.user := row];
    hide RowsOk, HistoryOk, DeleteRow;
  }

  // ----- Updates of one record -----

  lemma OnceKeeps(s: Sys, row: Row)
    requires Inv(s) && Known(s, row)
    ensures var (s', f) := Once(s, row);
      && Inv(s') && f < |s'.flights| && s'.flights[f].row.user == row.user
      && s'.callers == s.callers && s'.crons == s.crons && s'.owners == s.owners && s'.homes == s.homes
  {
    if row.user !in s.promises {
      TakeOff(s, row);
      TakeOffPromises(s, row);
    }
    hide FlightsOk, CallersOk, CallbacksOk, PromisesOk, SpentOk;
  }

  lemma TakeOffPromises(s: Sys, row: Row)
    requires Inv(s) && Known(s, row) && row.user !in s.promises
    ensures PromisesOk(Once(s, row).0) && SpentOk(Once(s, row).0)
  {
    hide HistoryOk, RowsOk, CacheOk, FlightsOk, CallersOk, CallbacksOk;
  }

  lemma TakeOff(s: Sys, row: Row)
    requires Inv(s) && Known(s, row) && row.user !in s.promises
    ensures FlightsOk(Once(s, row).0) && CallersOk(Once(s, row).0) && CallbacksOk(Once(s, row).0)
  {
    hide HistoryOk, RowsOk, CacheOk, PromisesOk, SpentOk;
  }

  lemma CallerKeeps(s: Sys, c: nat, at: CallerAt)
    requires Inv(s) && c < |s.callers| && CallerOk(s, s.callers[c].(at := at))
    ensures Inv(SetCaller(s, c, at))
  {
    hide HistoryOk, RowsOk, CacheOk, PromisesOk, FlightsOk, CallbacksOk, SpentOk;
    UnreadFields(s, SetCaller(s, c, at));
  }

  lemma CronStateKeeps(s: Sys, k: nat, todo: seq<Row>, waiting: Option<nat>)
    requires Inv(s) && k < |s.crons| && forall r :: r in todo ==> Known(s, r)
    ensures Inv(SetCron(s, k, todo, waiting))
  {
    hide HistoryOk, RowsOk, CacheOk, PromisesOk, FlightsOk, CallbacksOk, SpentOk;
    UnreadFields(s, SetCron(s, k, todo, waiting));
  }

  /** The clauses that read neither callers nor crons. */
  lemma UnreadFields(s: Sys, s': Sys)
    requires s' == s.(callers := s'.callers, crons := s'.crons)
    requires Inv(s)
    ensures HistoryOk(s') && RowsOk(s') && CacheOk(s') && PromisesOk(s')
    ensures FlightsOk(s') && CallbacksOk(s') && SpentOk(s')
  {
    hide CallerOk;
  }

  lemma CacheKeeps(s: Sys, cache: map<User, CacheEntry>)
    requires Inv(s) && CacheOk(s.(cache := cache))
    ensures Inv(s.(cache := cache))
  {
  }

  lemma CallbackStateKeeps(s: Sys, k: nat, at: CallbackAt)
    requires Base(s) && k < |s.callbacks| && CallbackOk(s, s.callbacks[k].(at := at), k)
    ensures Base(SetCallback(s, k, at))
    ensures SpentOk(s) ==> SpentOk(SetCallback(s, k, at))
  {
  }

  lemma FlightPhaseKeeps(s: Sys, f: nat, phase: Phase)
    requires Base(s) && f < |s.flights|
    requires !s.flights[f].phase.Done? && !phase.Done? && PhaseOk(s, s.flights[f].row.user, phase, f)
    ensures Base(SetFlight(s, f, phase))
  {
    FlightPhaseFlights(s, f, phase);
    hide FlightsOk, PhaseOk;
  }

  lemma FlightPhaseFlights(s: Sys, f: nat, phase: Phase)
    requires FlightsOk(s) && f < |s.flights| && PhaseOk(s, s.flights[f].row.user, phase, f)
    ensures FlightsOk(SetFlight(s, f, phase))
  {
  }

  lemma FlightPhaseSpent(s: Sys, f: nat, phase: Phase)
    requires Inv(s) && f < |s.flights| && !s.flights[f].phase.Done?
    ensures SpentOkBut(SetFlight(s, f, phase), s.flights[f].row.user)
    ensures !Unsettled(s.flights[f].phase) || Unsettled(phase) ==> SpentOk(SetFlight(s, f, phase))
  {
    hide FlightsOk, CallersOk, CallbacksOk, CacheOk;
  }

  lemma IssueKeeps(s: Sys, user: User, holder: Holder)
    requires Inv(s)
    ensures Inv(Issue(s, user, holder))
    ensures Unsaved(Issue(s, user, holder), user, |s.owners|, holder)
  {
    hide SpentOk, PromisesOk;
    var s' := Issue(s, user, holder);
    assert forall u, g :: Owned(s, u, g) ==> Owned(s', u, g);
    assert SpentOk(s') && PromisesOk(s') by { IssueUnread(s, user, holder); }
  }

  lemma IssueUnread(s: Sys, user: User, holder: Holder)
    requires Inv(s)
    ensures SpentOk(Issue(s, user, holder)) && PromisesOk(Issue(s, user, holder))
  {
    hide HistoryOk, RowsOk, CacheOk, FlightsOk, CallersOk, CallbacksOk;
  }

  /** Saving a grant its holder just stopped carrying. */
  lemma StoreKeeps(s: Sys, row: Row, holder: Holder)
    requires Base(s) && SpentOkBut(s, row.user) && Unsaved(s, row.user, row.grant, holder)
    requires match holder
      case FlightOf(f) => f < |s.flights| ==> !s.flights[f].phase.Answered?
      case CallbackOf(k) => k < |s.callbacks| ==> s.callbacks[k].at.RowSaved?
      case Earlier => true
    requires row.id in s.ids ==> s.ids[row.id] == row.user
    ensures Inv(Stored(s, row))
  {
    var s' := Stored(s, row);
    assert forall r :: Known(s, r) ==> Known(s', r);
    StoreRows(s, row, s');
    StoreFlights(s, row, holder, s');
    StoreCallers(s, row, s');
    StoreCallbacks(s, row, holder, s');
    hide RowsOk, FlightsOk, CallersOk, CallbacksOk, SpentOk;
  }

  lemma StoreRows(s: Sys, row: Row, s': Sys)
    requires Base(s) && SpentOkBut(s, row.user) && Owned(s, row.user, row.grant)
    requires row.grant !in s.homes && row.grant !in s.spent
    requires s' == Stored(s, row)
    requires row.id in s.ids ==> s.ids[row.id] == row.user
    ensures RowsOk(s') && SpentOk(s')
  {
    hide FlightsOk, CallersOk, CallbacksOk, CacheOk;
    forall u | u in s'.rows && u != row.user ensures u in s.rows - {row.user} && s'.rows[u] == s.rows[u] {
    }
  }

  lemma StoreFlights(s: Sys, row: Row, holder: Holder, s': Sys)
    requires Base(s) && Unsaved(s, row.user, row.grant, holder)
    requires holder.FlightOf? && holder.flight < |s.flights| ==> !s.flights[holder.flight].phase.Answered?
    requires s' == Stored(s, row)
    requires row.id in s.ids ==> s.ids[row.id] == row.user
    ensures FlightsOk(s')
  {
    hide CallersOk, CallbacksOk, CacheOk, RowsOk;
    forall i | 0 <= i < |s.flights|
      ensures Known(s', s.flights[i].row) && PhaseOk(s', s.flights[i].row.user, s.flights[i].phase, i)
    {
      assert Known(s, s.flights[i].row) && PhaseOk(s, s.flights[i].row.user, s.flights[i].phase, i);
    }
  }

  lemma StoreCallers(s: Sys, row: Row, s': Sys)
    requires Base(s) && row.grant !in s.homes
    requires s' == Stored(s, row)
    requires row.id in s.ids ==> s.ids[row.id] == row.user
    ensures CallersOk(s')
  {
    hide FlightsOk, CallbacksOk, CacheOk, RowsOk, PromisesOk;
    forall i | 0 <= i < |s.callers| ensures CallerOk(s', s.callers[i]) {
      assert CallerOk(s, s.callers[i]);
    }
  }

  lemma StoreCallbacks(s: Sys, row: Row, holder: Holder, s': Sys)
    requires Base(s) && Unsaved(s, row.user, row.grant, holder)
    requires holder.CallbackOf? && holder.callback < |s.callbacks| ==> s.callbacks[holder.callback].at.RowSaved?
    requires s' == Stored(s, row)
    requires row.id in s.ids ==> s.ids[row.id] == row.user
    ensures CallbacksOk(s')
  {
    hide FlightsOk, CallersOk, CacheOk, RowsOk, PromisesOk, HistoryOk, CallbackOk, Stored, Unsaved;
    forall k | 0 <= k < |s.callbacks| ensures CallbackOk(s', s.callbacks[k], k) {
      StoreKeepsCallback(s, row, holder, s.callbacks[k], k);
    }
    SameCallbacks(s, row);
  }

  lemma SameCallbacks(s: Sys, row: Row)
    ensures Stored(s, row).callbacks == s.callbacks
  {
  }

  lemma StoreKeepsCallback(s: Sys, row: Row, holder: Holder, c: Callback, k: nat)
    requires CallbackOk(s, c, k) && Unsaved(s, row.user, row.grant, holder)
    requires holder == CallbackOf(k) ==> c.at.RowSaved?
    requires row.id in s.ids ==> s.ids[row.id] == row.user
    ensures CallbackOk(Stored(s, row), c, k)
  {
  }

  lemma DeleteKeeps(s: Sys, user: User, id: int)
    requires Base(s) && SpentOkBut(s, user)
    requires user in s.rows && s.rows[user].id != id ==> s.rows[user].grant !in s.spent
    ensures Inv(s.(rows := Dropped(s.rows, user, id)))
  {
    var s' := s.(rows := Dropped(s.rows, user, id));
    assert RowsOk(s') && SpentOk(s') by {
      hide FlightsOk, CallersOk, CallbacksOk, CacheOk;
      forall u | u in s'.rows && u != user ensures u in s.rows - {user} && s'.rows[u] == s.rows[u] {
      }
    }
    hide RowsOk, SpentOk;
  }

  // ----- Every step keeps the invariant -----

  lemma CallKeeps(s: Sys, user: User, now: int)
    requires Inv(s)
    ensures Inv(DoCallGet(s, user, now)) && Inv(DoCallForce(s, user))
  {
    CacheKeeps(s, s.cache - {user});
    CallerStarts(s, user, false, Reading);
    CallerStarts(s.(cache := s.cache - {user}), user, true, Reading);
    if user in s.cache {
      CallerStarts(s, user, false, Returned(Some(s.cache[user].grant)));
    }
  }

  lemma CallerStarts(s: Sys, user: User, forced: bool, at: CallerAt)
    requires Inv(s) && CallerOk(s, Caller(user, forced, at))
    ensures Inv(s.(callers := s.callers + [Caller(user, forced, at)]))
  {
    var s' := s.(callers := s.callers + [Caller(user, forced, at)]);
    UnreadFields(s, s');
    hide HistoryOk, RowsOk, CacheOk, PromisesOk, FlightsOk, CallbacksOk, SpentOk;
  }

  lemma ReadAndWakeKeep(s: Sys, c: nat)
    requires Inv(s)
    ensures Inv(DoReadRow(s, c)) && Inv(DoWake(s, c))
  {
    if c < |s.callers| {
      assert CallerOk(s, s.callers[c]);
      var user := s.callers[c].user;
      if s.callers[c].at.Reading? {
        CallerKeeps(s, c, HasRow(if user in s.rows then Some(s.rows[user]) else None));
      } else if s.callers[c].at.Waiting? && s.flights[s.callers[c].at.flight].phase.Done? {
        var f := s.callers[c].at.flight;
        assert PhaseOk(s, s.flights[f].row.user, s.flights[f].phase, f);
        CallerKeeps(s, c, Returned(s.flights[f].phase.result));
      }
    }
  }

  lemma ResumeKeeps(s: Sys, c: nat, now: int)
    requires Inv(s)
    ensures Inv(DoResume(s, c, now))
  {
    if c < |s.callers| && s.callers[c].at.HasRow? {
      assert CallerOk(s, s.callers[c]);
      match s.callers[c].at.row {
        case None => CallerKeeps(s, c, Returned(None));
        case Some(row) =>
          if !s.callers[c].forced && row.accessExpires - now > s.bufferMs {
            var cache := s.cache[s.callers[c].user := CacheEntry(row.grant, row.accessExpires)];
            CacheKeeps(s, cache);
            CallerKeeps(s.(cache := cache), c, Returned(Some(row.grant)));
          } else {
            OnceKeeps(s, row);
            hide Inv;
            CallerKeeps(Once(s, row).0, c, Waiting(Once(s, row).1));
          }
      }
    }
  }

  lemma {:induction false} StoredRowsAreKnown(s: Sys, users: seq<User>)
    requires RowsOk(s)
    ensures forall r :: r in StoredRows(s, users) ==> Known(s, r)
  {
    if users != [] {
      StoredRowsAreKnown(s, users[1..]);
    }
  }

  lemma CronReadKeeps(s: Sys, now: int, users: seq<User>)
    requires Inv(s)
    ensures Inv(DoCronRead(s, now, users))
  {
    StoredRowsAreKnown(s, users);
    UnreadFields(s, DoCronRead(s, now, users));
    hide HistoryOk, RowsOk, CacheOk, PromisesOk, FlightsOk, CallbacksOk, SpentOk, StoredRows;
  }

  lemma CronKeeps(s: Sys, k: nat)
    requires Inv(s)
    ensures Inv(DoCronNext(s, k)) && Inv(DoCronWake(s, k))
  {
    if k < |s.crons| {
      var cron := s.crons[k];
      CronStateKeeps(s, k, cron.todo, None);
      if cron.todo != [] {
        CronStateKeeps(s, k, cron.todo[1..], None);
        OnceKeeps(s, cron.todo[0]);
        hide Inv;
        CronStateKeeps(Once(s, cron.todo[0]).0, k, cron.todo[1..], Some(Once(s, cron.todo[0]).1));
      }
    }
  }

  /** Only flights of that user ever carried a grant it owns, and its row is the one being redeemed. */
  lemma SpendKeeps(s: Sys, f: nat, phase: Phase)
    requires Inv(s) && CanAccept(s, f)
    requires Unsettled(phase) && PhaseOk(s, s.flights[f].row.user, phase, f)
    ensures Inv(SetFlight(s.(spent := s.spent + {s.flights[f].row.grant}), f, phase))
  {
    var g := s.flights[f].row.grant;
    assert Known(s, s.flights[f].row);
    var s1 := s.(spent := s.spent + {g});
    assert Base(s1) by { SpendBase(s, g); }
    assert PhaseOk(s1, s.flights[f].row.user, phase, f);
    FlightPhaseKeeps(s1, f, phase);
    SpendSpent(s, f, phase);
    hide Base;
  }

  lemma SpendBase(s: Sys, g: nat)
    requires Base(s) && g in s.homes
    ensures Base(s.(spent := s.spent + {g}))
  {
    var s' := s.(spent := s.spent + {g});
    assert forall u, n, h :: Unsaved(s, u, n, h) ==> Unsaved(s', u, n, h);
    assert FlightsOk(s') by {
      hide CallersOk, CallbacksOk, CacheOk, PromisesOk, RowsOk;
      forall i | 0 <= i < |s.flights|
        ensures Known(s', s.flights[i].row) && PhaseOk(s', s.flights[i].row.user, s.flights[i].phase, i)
      {
        assert Known(s, s.flights[i].row) && PhaseOk(s, s.flights[i].row.user, s.flights[i].phase, i);
      }
    }
    hide FlightsOk;
  }

  lemma SpendSpent(s: Sys, f: nat, phase: Phase)
    requires Inv(s) && CanAccept(s, f) && Unsettled(phase) && Known(s, s.flights[f].row)
    ensures SpentOk(SetFlight(s.(spent := s.spent + {s.flights[f].row.grant}), f, phase))
  {
    hide CallersOk, CallbacksOk, CacheOk, FlightsOk;
  }

  lemma AcceptKeeps(s: Sys, f: nat, expiresIn: int)
    requires Inv(s)
    ensures Inv(DoAccept(s, f, expiresIn)) && Inv(DoAcceptPartial(s, f))
  {
    if CanAccept(s, f) {
      SpendKeeps(s, f, Answered(Partial));
      IssueKeeps(s, s.flights[f].row.user, FlightOf(f));
      hide Inv;
      SpendKeeps(Issue(s, s.flights[f].row.user, FlightOf(f)), f, Answered(Tokens(|s.owners|, expiresIn)));
    }
  }

  lemma RefuseKeeps(s: Sys, f: nat, reply: Reply)
    requires Inv(s) && (reply == Dead || reply == Failed)
    ensures Inv(DoRefuse(s, f, reply))
  {
    if f < |s.flights| && s.flights[f].phase.Sent? {
      FlightPhaseKeeps(s, f, Answered(reply));
      FlightPhaseSpent(s, f, Answered(reply));
    }
  }

  /** A stored row under another id than the one a flight redeems is not spent. */
  lemma OtherRowIsLive(s: Sys, f: nat)
    requires Inv(s) && f < |s.flights| && !s.flights[f].phase.Done?
    ensures var row := s.flights[f].row;
      row.user in s.rows && s.rows[row.user].id != row.id ==> s.rows[row.user].grant !in s.spent
    ensures var row := s.flights[f].row;
      row.user in s.rows && !Unsettled(s.flights[f].phase) ==> s.rows[row.user].grant !in s.spent
  {
    hide CallersOk, CallbacksOk, CacheOk;
    assert Known(s, s.flights[f].row);
  }

  lemma FlightHolds(s: Sys, f: nat)
    requires Inv(s) && f < |s.flights|
    ensures PhaseOk(s, s.flights[f].row.user, s.flights[f].phase, f)
  {
  }

  lemma PersistKeeps(s: Sys, f: nat, now: int)
    requires Inv(s)
    ensures Inv(DoPersist(s, f, now))
  {
    hide Inv, StoreByFlight, ForgetByFlight, SetFlight, Unsaved;
    if f < |s.flights| && s.flights[f].phase.Answered? {
      FlightHolds(s, f);
      match s.flights[f].phase.reply {
        case Tokens(g, expiresIn) => StoreByFlightKeeps(s, f, g, now + expiresIn * 1000);
        case Failed => PersistFailedKeeps(s, f);
        case Partial => ForgetByFlightKeeps(s, f);
        case Dead => ForgetByFlightKeeps(s, f);
      }
    }
  }

  lemma PersistFailedKeeps(s: Sys, f: nat)
    requires Inv(s) && f < |s.flights| && s.flights[f].phase == Answered(Failed)
    ensures Inv(SetFlight(s, f, Settled(None)))
  {
    FlightPhaseKeeps(s, f, Settled(None));
    FlightPhaseSpent(s, f, Settled(None));
    hide Base, SpentOk;
  }

  lemma FlightDeletesOwnRow(s: Sys, f: nat)
    requires Inv(s) && f < |s.flights|
    ensures var row := s.flights[f].row; DeleteRow(s.rows, row.id) == Dropped(s.rows, row.user, row.id)
  {
    assert Known(s, s.flights[f].row);
    DeletesOwnRow(s, s.flights[f].row.user, s.flights[f].row.id);
  }

  lemma ForgetByFlightKeeps(s: Sys, f: nat)
    requires Inv(s) && f < |s.flights| && s.flights[f].phase.Answered?
    ensures Inv(ForgetByFlight(s, f))
  {
    OtherRowIsLive(s, f);
    FlightPhaseKeeps(s, f, Deleted);
    FlightPhaseSpent(s, f, Deleted);
    hide Base, SpentOk, SpentOkBut;
    DeleteKeeps(SetFlight(s, f, Deleted), s.flights[f].row.user, s.flights[f].row.id);
    FlightDeletesOwnRow(s, f);
    hide Dropped, DeleteRow;
  }

  lemma StoreByFlightKeeps(s: Sys, f: nat, g: nat, expiresAt: int)
    requires Inv(s) && f < |s.flights| && s.flights[f].phase.Answered?
    requires Unsaved(s, s.flights[f].row.user, g, FlightOf(f))
    ensures Inv(StoreByFlight(s, f, g, expiresAt))
  {
    var row := s.flights[f].row;
    OtherRowIsLive(s, f);
    FlightPhaseKeeps(s, f, Settled(None));
    FlightPhaseSpent(s, f, Settled(None));
    FlightPhaseKeeps(s, f, Saved(g, expiresAt));
    FlightPhaseSpent(s, f, Saved(g, expiresAt));
    assert Known(s, row);
    if row.user in s.rows && s.rows[row.user].id != row.id {
      SpentOkRejoins(SetFlight(s, f, Settled(None)), row.user);
    } else {
      SavesOwnRow(s, Row(row.id, row.user, g, expiresAt));
      StoreKeeps(SetFlight(s, f, Saved(g, expiresAt)), Row(row.id, row.user, g, expiresAt), FlightOf(f));
    }
  }

  lemma SpentOkRejoins(s: Sys, user: User)
    requires SpentOkBut(s, user)
    requires user in s.rows ==> s.rows[user].grant !in s.spent
    ensures SpentOk(s)
  {
    forall u | u in s.rows && u != user ensures u in s.rows - {user} {
    }
  }

  lemma FinishKeeps(s: Sys, f: nat)
    requires Inv(s)
    ensures Inv(DoUpdateCache(s, f))
  {
    if f < |s.flights| {
      var user := s.flights[f].row.user;
      assert PhaseOk(s, user, s.flights[f].phase, f);
      match s.flights[f].phase {
        case Saved(g, expiresAt) =>
          CacheKeeps(s, s.cache[user := CacheEntry(g, expiresAt)]);
          var s1 := s.(cache := s.cache[user := CacheEntry(g, expiresAt)]);
          FlightPhaseKeeps(s1, f, Settled(Some(g)));
          FlightPhaseSpent(s1, f, Settled(Some(g)));
        case Deleted =>
          CacheKeeps(s, s.cache - {user});
          FlightPhaseKeeps(s.(cache := s.cache - {user}), f, Settled(None));
          FlightPhaseSpent(s.(cache := s.cache - {user}), f, Settled(None));
        case _ =>
      }
    }
  }

  lemma FinallyKeeps(s: Sys, f: nat)
    requires Inv(s)
    ensures Inv(DoFinally(s, f))
  {
    if f < |s.flights| && s.flights[f].phase.Settled? {
      var phase := Done(s.flights[f].phase.result);
      assert PhaseOk(s, s.flights[f].row.user, s.flights[f].phase, f);
      var s1 := s.(promises := s.promises - {s.flights[f].row.user});
      FlightPhaseFlights(s1, f, phase);
      var s' := SetFlight(s1, f, phase);
      ForgetPromise(s, f);
      hide FlightsOk, PromisesOk, SpentOk;
    }
  }

  lemma ForgetPromise(s: Sys, f: nat)
    requires Inv(s) && f < |s.flights| && s.flights[f].phase.Settled?
    ensures var s' := SetFlight(
              s.(promises := s.promises - {s.flights[f].row.user}), f, Done(s.flights[f].phase.result));
      PromisesOk(s') && SpentOk(s')
  {
    hide CallersOk, CallbacksOk, CacheOk, FlightsOk;
  }

  lemma CallbackKeeps(s: Sys, k: nat, expiresIn: int)
    requires Inv(s)
    ensures Inv(DoGrantCode(s, k, expiresIn))
    ensures Inv(DoCodeReply(s, k, CodeAnswered(Partial))) && Inv(DoCodeReply(s, k, Finished))
  {
    hide Base, SpentOk;
    if k < |s.callbacks| {
      var user := s.callbacks[k].user;
      CallbackStateKeeps(s, k, CodeAnswered(Partial));
      CallbackStateKeeps(s, k, Finished);
      IssueKeeps(s, user, CallbackOf(k));
      CallbackStateKeeps(Issue(s, user, CallbackOf(k)), k, CodeAnswered(Tokens(|s.owners|, expiresIn)));
    }
  }

  lemma CallbackReadKeeps(s: Sys, k: nat)
    requires Inv(s)
    ensures Inv(DoCallbackRead(s, k))
  {
    hide Base, SpentOk, Unsaved;
    if k < |s.callbacks| && s.callbacks[k].at.CodeAnswered? {
      var user := s.callbacks[k].user;
      CallbackHolds(s, k);
      StoredIdOk(s, user);
      var id := if user in s.rows then Some(s.rows[user].id) else None;
      CallbackStateKeeps(s, k, FoundRow(id, s.callbacks[k].at.reply));
    }
  }

  lemma StoredIdOk(s: Sys, user: User)
    requires Inv(s)
    ensures IdOk(s, user, if user in s.rows then Some(s.rows[user].id) else None)
  {
    if user in s.rows {
      assert Known(s, s.rows[user]);
    }
    hide CallersOk, CallbacksOk, CacheOk, FlightsOk;
  }

  lemma CallbackStartKeeps(s: Sys, user: User)
    requires Inv(s)
    ensures Inv(DoCallbackStart(s, user))
  {
    var s' := DoCallbackStart(s, user);
    assert CallbacksOk(s') by {
      hide HistoryOk, RowsOk, CacheOk, PromisesOk, FlightsOk, CallersOk, SpentOk;
    }
    hide CallbacksOk;
  }

  lemma CallbackHolds(s: Sys, k: nat)
    requires Inv(s) && k < |s.callbacks|
    ensures CallbackOk(s, s.callbacks[k], k)
  {
  }

  lemma CallbackPersistKeeps(s: Sys, k: nat, now: int, freshId: int)
    requires Inv(s)
    ensures Inv(DoCallbackPersist(s, k, now, freshId))
  {
    hide Inv, StoreByCallback, ForgetByCallback, Unsaved;
    if k < |s.callbacks| && s.callbacks[k].at.FoundRow? {
      CallbackHolds(s, k);
      var existing := s.callbacks[k].at.existing;
      match s.callbacks[k].at.reply {
        case Tokens(g, expiresIn) =>
          var id := if existing.Some? then existing.value else freshId;
          if existing.Some? || freshId !in s.ids {
            StoreByCallbackKeeps(s, k, existing, Row(id, s.callbacks[k].user, g, now + expiresIn * 1000));
          }
        case _ => ForgetByCallbackKeeps(s, k, existing);
      }
    }
  }

  lemma StoreByCallbackKeeps(s: Sys, k: nat, existing: Option<int>, row: Row)
    requires Inv(s) && k < |s.callbacks| && s.callbacks[k].user == row.user
    requires Unsaved(s, row.user, row.grant, CallbackOf(k))
    requires row.id in s.ids ==> s.ids[row.id] == row.user
    ensures Inv(StoreByCallback(s, k, existing, row))
  {
    hide Stored;
    if row.user in s.rows ==> s.rows[row.user].id == row.id {
      SavesOwnRow(s, row);
    }
    var s1 := SetCallback(s, k, RowSaved(row.grant, row.accessExpires));
    CallbackStateKeeps(s, k, Finished);
    CallbackStateKeeps(s, k, RowSaved(row.grant, row.accessExpires));
    SpentOkRemains(s1, row.user);
    hide Base, SpentOk, SpentOkBut, SaveRow;
    StoreKeeps(s1, row, CallbackOf(k));
    StoredCommutes(s, k, row, RowSaved(row.grant, row.accessExpires));
  }

  lemma StoredCommutes(s: Sys, k: nat, row: Row, at: CallbackAt)
    requires k < |s.callbacks|
    ensures Stored(SetCallback(s, k, at), row) == SetCallback(Stored(s, row), k, at)
    ensures Stored(s, row)
         == s.(rows := s.rows[row.user := row], homes := s.homes[row.grant := row.id], ids := s.ids[row.id := row.user])
  {
  }

  lemma ForgetByCallbackKeeps(s: Sys, k: nat, existing: Option<int>)
    requires Inv(s) && k < |s.callbacks| && IdOk(s, s.callbacks[k].user, existing)
    ensures Inv(ForgetByCallback(s, k, existing))
  {
    CallbackStateKeeps(s, k, Finished);
    if existing.Some? {
      DeletesOwnRow(s, s.callbacks[k].user, existing.value);
      DeleteByCallback(s, s.callbacks[k].user, existing.value);
      hide Base, SpentOk;
      CallbackStateKeeps(s.(rows := Dropped(s.rows, s.callbacks[k].user, existing.value)), k, RowDeleted);
    }
  }

  lemma SpentOkRemains(s: Sys, user: User)
    requires SpentOk(s)
    ensures SpentOkBut(s, user)
  {
  }

  lemma DeleteByCallback(s: Sys, user: User, id: int)
    requires Inv(s)
    ensures Inv(s.(rows := Dropped(s.rows, user, id)))
  {
    var s' := s.(rows := Dropped(s.rows, user, id));
    assert RowsOk(s') && SpentOk(s') by {
      hide FlightsOk, CallersOk, CallbacksOk, CacheOk;
    }
    hide RowsOk, SpentOk;
  }

  lemma CallbackFinishKeeps(s: Sys, k: nat)
    requires Inv(s)
    ensures Inv(DoCallbackFinish(s, k))
  {
    if k < |s.callbacks| {
      assert CallbackOk(s, s.callbacks[k], k);
      var user := s.callbacks[k].user;
      match s.callbacks[k].at {
        case RowSaved(g, expiresAt) =>
          CacheKeeps(s, s.cache[user := CacheEntry(g, expiresAt)]);
          CallbackStateKeeps(s.(cache := s.cache[user := CacheEntry(g, expiresAt)]), k, Finished);
        case RowDeleted =>
          CacheKeeps(s, s.cache - {user});
          CallbackStateKeeps(s.(cache := s.cache - {user}), k, Finished);
        case _ =>
      }
    }
  }

  lemma StepKeeps(s: Sys, e: Event)
    requires Inv(s)
    ensures Inv(Step(s, e))
  {
    hide Inv;
    match e {
      case CallGet(user, now) => CallKeeps(s, user, now);
      case CallForce(user) => CallKeeps(s, user, 0);
      case ReadRow(c) => ReadAndWakeKeep(s, c);
      case Resume(c, now) => ResumeKeeps(s, c, now);
      case Wake(c) => ReadAndWakeKeep(s, c);
      case CronRead(now, users) => CronReadKeeps(s, now, users);
      case CronNext(k) => CronKeeps(s, k);
      case CronWake(k) => CronKeeps(s, k);
      case Accept(f, expiresIn) => AcceptKeeps(s, f, expiresIn);
      case AcceptPartial(f) => AcceptKeeps(s, f, 0);
      case Reject(f) => RefuseKeeps(s, f, Dead);
      case FailCall(f) => RefuseKeeps(s, f, Failed);
      case Persist(f, now) => PersistKeeps(s, f, now);
      case UpdateCache(f) => FinishKeeps(s, f);
      case Finally(f) => FinallyKeeps(s, f);
      case CallbackStart(user) => CallbackStartKeeps(s, user);
      case GrantCode(k, expiresIn) => CallbackKeeps(s, k, expiresIn);
      case GrantCodePartial(k) => CallbackKeeps(s, k, 0);
      case RefuseCode(k) => CallbackKeeps(s, k, 0);
      case CallbackRead(k) => CallbackReadKeeps(s, k);
      case CallbackPersist(k, now, freshId) => CallbackPersistKeeps(s, k, now, freshId);
      case CallbackFinish(k) => CallbackFinishKeeps(s, k);
    }
  }

  // ----- Over whole runs -----

  /** A service that has just started: rows from before, nothing in flight, no stored token spent. */
  ghost predicate Started(s: Sys) {
    && s.flights == [] && s.callers == [] && s.crons == [] && s.callbacks == []
    && s.cache == map[] && s.promises == map[] && s.resent == {}
    && HistoryOk(s) && RowsOk(s)
    && (forall u :: u in s.rows ==> s.rows[u].grant !in s.spent)
  }

  lemma {:induction false} RunKeeps(s: Sys, events: seq<Event>)
    requires Started(s)
    ensures Inv(Run(s, events))
  {
    if events != [] {
      RunKeeps(s, events[..|events| - 1]);
      StepKeeps(Run(s, events[..|events| - 1]), events[|events| - 1]);
    }
  }

  predicate Outstanding(s: Sys, f: nat) {
    f < |s.flights| && !s.flights[f].phase.Done?
  }

  /** Never two refreshes at once for one user. */
  lemma OneRefreshPerUser(s: Sys, events: seq<Event>, f: nat, g: nat)
    requires Started(s)
    requires Outstanding(Run(s, events), f) && Outstanding(Run(s, events), g)
    requires Run(s, events).flights[f].row.user == Run(s, events).flights[g].row.user
    ensures f == g
  {
    RunKeeps(s, events);
    hide Run;
  }

  /** Every token handed to a caller, by the cache, the store or a joined refresh, is that user's own. */
  lemma CallersGetTheirOwnToken(s: Sys, events: seq<Event>, c: nat)
    requires Started(s)
    requires c < |Run(s, events).callers| && Run(s, events).callers[c].at.Returned?
    requires Run(s, events).callers[c].at.result.Some?
    ensures Owned(Run(s, events), Run(s, events).callers[c].user, Run(s, events).callers[c].at.result.value)
  {
    RunKeeps(s, events);
    hide Run;
    assert CallerOk(Run(s, events), Run(s, events).callers[c]);
  }

  /** A caller that waited for a refresh is answered with what the server issued to that refresh, or with nothing. */
  lemma WaitersGetTheRefreshedGrant(s: Sys, events: seq<Event>, c: nat)
    requires Started(s) && c < |Run(s, events).callers| && Run(s, events).callers[c].at.Waiting?
    ensures var t := Run(s, events);
      var f, at := t.callers[c].at.flight, Step(t, Wake(c)).callers[c].at;
      && f < |t.flights| && t.flights[f].row.user == t.callers[c].user
      && (at.Waiting? || at.Returned?) && (at.Waiting? <==> !t.flights[f].phase.Done?)
      && (at.Returned? && at.result.Some? ==>
          at.result.value < |t.holders| && t.holders[at.result.value] == FlightOf(f))
  {
    RunKeeps(s, events);
    hide Run;
    var t := Run(s, events);
    assert CallerOk(t, t.callers[c]);
    var f := t.callers[c].at.flight;
    assert PhaseOk(t, t.flights[f].row.user, t.flights[f].phase, f);
    hide Base;
  }

  ghost predicate Refreshing(s: Sys, user: User) {
    exists f: nat :: Outstanding(s, f) && s.flights[f].row.user == user
  }

  /** With no refresh outstanding for a user, its stored refresh token was not rotated away. */
  lemma StoredTokenIsLive(s: Sys, events: seq<Event>, user: User)
    requires Started(s)
    requires user in Run(s, events).rows
    ensures Run(s, events).rows[user].grant in Run(s, events).spent ==> Refreshing(Run(s, events), user)
  {
    RunKeeps(s, events);
    hide Run;
    var t := Run(s, events);
    if t.rows[user].grant in t.spent {
      assert Outstanding(t, t.promises[user]);
    }
  }

  // ----- Sending a spent token -----

  /** The row an event would hand to `refreshAccessTokenOnce`, when no refresh is there to join. */
  function Handed(s: Sys, e: Event): Option<Row> {
    match e
    case Resume(c, now) =>
      if c < |s.callers| && s.callers[c].at.HasRow? && s.callers[c].at.row.Some?
         && (s.callers[c].forced || s.callers[c].at.row.value.accessExpires - now <= s.bufferMs)
         && s.callers[c].at.row.value.user !in s.promises
      then s.callers[c].at.row else None
    case CronNext(k) =>
      if k < |s.crons| && s.crons[k].waiting.None? && s.crons[k].todo != []
         && s.crons[k].todo[0].accessExpires <= s.crons[k].cutoff && s.crons[k].todo[0].user !in s.promises
      then Some(s.crons[k].todo[0]) else None
    case _ => None
  }

  /** The row handed over is the one stored at that moment. */
  predicate IsFresh(s: Sys, row: Row) {
    row.user in s.rows && s.rows[row.user] == row
  }

  /** A refresh token is sent after being spent exactly when the row handed over was. */
  lemma ResentExactly(s: Sys, e: Event)
    ensures Step(s, e).resent
         == if Handed(s, e).Some? && Handed(s, e).value.grant in s.spent then s.resent + {Handed(s, e).value.grant}
            else s.resent
  {
    hide Step, Handed;
    if e.Resume? {
      ResumeResends(s, e);
    } else if e.CronNext? {
      CronResends(s, e);
    } else {
      OthersSendNothing(s, e);
    }
  }

  lemma ResumeResends(s: Sys, e: Event)
    requires e.Resume?
    ensures Step(s, e).resent
         == if Handed(s, e).Some? && Handed(s, e).value.grant in s.spent then s.resent + {Handed(s, e).value.grant}
            else s.resent
  {
  }

  lemma CronResends(s: Sys, e: Event)
    requires e.CronNext?
    ensures Step(s, e).resent
         == if Handed(s, e).Some? && Handed(s, e).value.grant in s.spent then s.resent + {Handed(s, e).value.grant}
            else s.resent
  {
  }

  lemma OthersSendNothing(s: Sys, e: Event)
    requires !e.Resume? && !e.CronNext?
    ensures Handed(s, e).None? && Step(s, e).resent == s.resent
  {
    hide DeleteRow, SaveRow, StoredRows, Once;
    if e.Persist? {
      PersistSendsNothing(s, e);
    }
    hide DoPersist;
  }

  lemma PersistSendsNothing(s: Sys, e: Event)
    requires e.Persist?
    ensures Step(s, e).resent == s.resent
  {
    hide DeleteRow, SaveRow;
  }

  lemma FreshIsNotSpent(s: Sys, e: Event)
    requires Inv(s) && Handed(s, e).Some? && IsFresh(s, Handed(s, e).value)
    ensures Handed(s, e).value.grant !in s.spent
  {
    hide Base;
  }

  ghost predicate FreshRun(s: Sys, events: seq<Event>) {
    forall i :: 0 <= i < |events| ==>
      Handed(Run(s, events[..i]), events[i]).Some? ==>
        IsFresh(Run(s, events[..i]), Handed(Run(s, events[..i]), events[i]).value)
  }

  /** If every row handed over is the stored one, no refresh token is ever sent after being spent. */
  lemma {:induction false} FreshRunsNeverResend(s: Sys, events: seq<Event>)
    requires Started(s) && FreshRun(s, events)
    ensures Run(s, events).resent == {}
  {
    if events != [] {
      var init, e := events[..|events| - 1], events[|events| - 1];
      forall i | 0 <= i < |init| ensures init[..i] == events[..i] {
      }
      FreshRunsNeverResend(s, init);
      RunKeeps(s, init);
      ResentExactly(Run(s, init), e);
      if Handed(Run(s, init), e).Some? {
        FreshIsNotSpent(Run(s, init), e);
      }
    }
  }
}
