/**
 * The single-flight OAuth refresh, as steps cut at every await, interleaved in any order.
 * A grant number stands for the refresh token and the access token of one response.
 * The steps are those of the service, of its store, and of a server that rotates refresh
 * tokens (sections 6 and 10.4 of RFC 6749).
 */
module Auth {
  import opened Seqs

  type User = string

  /** One stored row. The unique index on the user lets `rows` be keyed by user. */
  datatype Row = Row(id: int, user: User, grant: nat, accessExpires: int)
  datatype CacheEntry = CacheEntry(grant: nat, expiresAt: int)

  /** What the token endpoint answers. `Partial` is a success without a replacement token. */
  datatype Reply = Tokens(grant: nat, expiresIn: int) | Partial | Dead | Failed

  datatype Phase =
    | Sent
    | Answered(reply: Reply)
    | Saved(grant: nat, expiresAt: int)
    | Deleted
    | Settled(result: Option<nat>)
    | Done(result: Option<nat>)

  /** One run of `refreshAccessToken`, on the row its caller handed over. */
  datatype Flight = Flight(row: Row, phase: Phase)

  datatype CallerAt =
    | Reading
    | HasRow(row: Option<Row>)
    | Waiting(flight: nat)
    | Returned(result: Option<nat>)

  datatype Caller = Caller(user: User, forced: bool, at: CallerAt)

  datatype Cron = Cron(cutoff: int, todo: seq<Row>, waiting: Option<nat>)

  datatype CallbackAt =
    | CodeSent
    | CodeAnswered(reply: Reply)
    | FoundRow(existing: Option<int>, reply: Reply)
    | RowSaved(grant: nat, expiresAt: int)
    | RowDeleted
    | Finished

  datatype Callback = Callback(user: User, at: CallbackAt)

  /** Who the server gave a grant to: a refresh, a callback, or someone before this run. */
  datatype Holder = FlightOf(flight: nat) | CallbackOf(callback: nat) | Earlier

  /**
   * `rows` is the table, `cache` and `promises` the service's Maps; `owners`, `holders`,
   * `homes`, `ids` and `spent` are the server's and the table's history: whose each grant is, who
   * received it, the row id it was saved under, whom each row id was made for, and which refresh
   * tokens were rotated away.
   * `resent` collects refresh tokens that were sent when already spent.
   */
  datatype Sys = Sys(
    bufferMs: int,
    rows: map<User, Row>, cache: map<User, CacheEntry>, promises: map<User, nat>,
    flights: seq<Flight>, callers: seq<Caller>, crons: seq<Cron>, callbacks: seq<Callback>,
    owners: seq<User>, holders: seq<Holder>, homes: map<nat, int>, ids: map<int, User>,
    spent: set<nat>, resent: set<nat>)

  datatype Event =
    | CallGet(user: User, now: int)
    | CallForce(user: User)
    | ReadRow(caller: nat)
    | Resume(caller: nat, now: int)
    | Wake(caller: nat)
    | CronRead(now: int, users: seq<User>)
    | CronNext(cron: nat)
    | CronWake(cron: nat)
    | Accept(flight: nat, expiresIn: int)
    | AcceptPartial(flight: nat)
    | Reject(flight: nat)
    | FailCall(flight: nat)
    | Persist(flight: nat, now: int)
    | UpdateCache(flight: nat)
    | Finally(flight: nat)
    | CallbackStart(user: User)
    | GrantCode(callback: nat, expiresIn: int)
    | GrantCodePartial(callback: nat)
    | RefuseCode(callback: nat)
    | CallbackRead(callback: nat)
    | CallbackPersist(callback: nat, now: int, freshId: int)
    | CallbackFinish(callback: nat)

  // ----- Pieces of the steps -----

  /** `refreshAccessTokenOnce`: join the flight of that user, or start one and send its token. */
  function Once(s: Sys, row: Row): (Sys, nat) {
    if row.user in s.promises then (s, s.promises[row.user])
    else
      (s.(flights := s.flights + [Flight(row, Sent)],
          promises := s.promises[row.user := |s.flights|],
          resent := if row.grant in s.spent then s.resent + {row.grant} else s.resent),
       |s.flights|)
  }

  /** `delete({ id })`: whichever rows have the id. */
  function DeleteRow(rows: map<User, Row>, id: int): map<User, Row> {
    rows - (set user | user in rows && rows[user].id == id)
  }

  /** `save` with an id: that row becomes this one, inserted when it is gone; a second row for the user is refused. */
  function SaveRow(rows: map<User, Row>, row: Row): Option<map<User, Row>> {
    if row.user in rows && rows[row.user].id != row.id then None else Some(DeleteRow(rows, row.id)[row.user := row])
  }

  function SetFlight(s: Sys, f: nat, phase: Phase): Sys
    requires f < |s.flights|
  {
    s.(flights := s.flights[f := s.flights[f].(phase := phase)])
  }

  function SetCaller(s: Sys, c: nat, at: CallerAt): Sys
    requires c < |s.callers|
  {
    s.(callers := s.callers[c := s.callers[c].(at := at)])
  }

  function SetCron(s: Sys, k: nat, todo: seq<Row>, waiting: Option<nat>): Sys
    requires k < |s.crons|
  {
    s.(crons := s.crons[k := s.crons[k].(todo := todo, waiting := waiting)])
  }

  function SetCallback(s: Sys, k: nat, at: CallbackAt): Sys
    requires k < |s.callbacks|
  {
    s.(callbacks := s.callbacks[k := s.callbacks[k].(at := at)])
  }

  function Issue(s: Sys, user: User, holder: Holder): Sys {
    s.(owners := s.owners + [user], holders := s.holders + [holder])
  }

  function StoredRows(s: Sys, users: seq<User>): seq<Row> {
    if users == [] then []
    else (if users[0] in s.rows then [s.rows[users[0]]] else []) + StoredRows(s, users[1..])
  }

  // ----- The steps; an event that is not enabled changes nothing -----

  /** `getValidAccessToken` up to its first await. */
  function DoCallGet(s: Sys, user: User, now: int): Sys {
    var hit := user in s.cache && s.cache[user].expiresAt > now;
    s.(callers := s.callers + [Caller(user, false, if hit then Returned(Some(s.cache[user].grant)) else Reading)])
  }

  function DoCallForce(s: Sys, user: User): Sys {
    s.(cache := s.cache - {user}, callers := s.callers + [Caller(user, true, Reading)])
  }

  function DoReadRow(s: Sys, c: nat): Sys {
    if c < |s.callers| && s.callers[c].at.Reading? then
      var user := s.callers[c].user;
      SetCaller(s, c, HasRow(if user in s.rows then Some(s.rows[user]) else None))
    else s
  }

  function DoResume(s: Sys, c: nat, now: int): Sys {
    if c < |s.callers| && s.callers[c].at.HasRow? then
      match s.callers[c].at.row
      case None => SetCaller(s, c, Returned(None))
      case Some(row) =>
        if !s.callers[c].forced && row.accessExpires - now > s.bufferMs then
          SetCaller(s.(cache := s.cache[s.callers[c].user := CacheEntry(row.grant, row.accessExpires)]),
                    c, Returned(Some(row.grant)))
        else
          var (s', f) := Once(s, row);
          SetCaller(s', c, Waiting(f))
    else s
  }

  function DoWake(s: Sys, c: nat): Sys {
    if c < |s.callers| && s.callers[c].at.Waiting? then
      var f := s.callers[c].at.flight;
      if f < |s.flights| && s.flights[f].phase.Done? then SetCaller(s, c, Returned(s.flights[f].phase.result)) else s
    else s
  }

  function DoCronRead(s: Sys, now: int, users: seq<User>): Sys {
    s.(crons := s.crons + [Cron(now + s.bufferMs, StoredRows(s, users), None)])
  }

  function DoCronNext(s: Sys, k: nat): Sys {
    if k < |s.crons| && s.crons[k].waiting.None? && s.crons[k].todo != [] then
      var row, rest := s.crons[k].todo[0], s.crons[k].todo[1..];
      if row.accessExpires > s.crons[k].cutoff then SetCron(s, k, rest, None)
      else
        var (s', f) := Once(s, row);
        SetCron(s', k, rest, Some(f))
    else s
  }

  function DoCronWake(s: Sys, k: nat): Sys {
    if k < |s.crons| && s.crons[k].waiting.Some? then
      var f := s.crons[k].waiting.value;
      if f < |s.flights| && s.flights[f].phase.Done? then SetCron(s, k, s.crons[k].todo, None) else s
    else s
  }

  predicate CanAccept(s: Sys, f: nat) {
    f < |s.flights| && s.flights[f].phase.Sent? && s.flights[f].row.grant !in s.spent
  }

  /** The server takes the refresh token, spends it, and issues the next pair. */
  function DoAccept(s: Sys, f: nat, expiresIn: int): Sys {
    if CanAccept(s, f) then
      SetFlight(Issue(s, s.flights[f].row.user, FlightOf(f)).(spent := s.spent + {s.flights[f].row.grant}),
                f, Answered(Tokens(|s.owners|, expiresIn)))
    else s
  }

  function DoAcceptPartial(s: Sys, f: nat): Sys {
    if CanAccept(s, f) then
      SetFlight(s.(spent := s.spent + {s.flights[f].row.grant}), f, Answered(Partial))
    else s
  }

  function DoRefuse(s: Sys, f: nat, reply: Reply): Sys {
    if f < |s.flights| && s.flights[f].phase.Sent? then SetFlight(s, f, Answered(reply)) else s
  }

  /** The `save` of a refreshed token; a second row for the user makes it throw. */
  function StoreByFlight(s: Sys, f: nat, g: nat, expiresAt: int): Sys
    requires f < |s.flights|
  {
    var row := s.flights[f].row;
    match SaveRow(s.rows, Row(row.id, row.user, g, expiresAt))
    case None => SetFlight(s, f, Settled(None))
    case Some(rows) =>
      SetFlight(s.(rows := rows, homes := s.homes[g := row.id], ids := s.ids[row.id := row.user]),
                f, Saved(g, expiresAt))
  }

  /** `forgetStoredToken` up to the store's answer: delete by row id. */
  function ForgetByFlight(s: Sys, f: nat): Sys
    requires f < |s.flights|
  {
    var row := s.flights[f].row;
    SetFlight(s.(rows := DeleteRow(s.rows, row.id)), f, Deleted)
  }

  /** The reply is handled: save, forget a dead or unreplaced token, or give up. */
  function DoPersist(s: Sys, f: nat, now: int): Sys {
    if f < |s.flights| && s.flights[f].phase.Answered? then
      match s.flights[f].phase.reply
      case Tokens(g, expiresIn) => StoreByFlight(s, f, g, now + expiresIn * 1000)
      case Failed => SetFlight(s, f, Settled(None))
      case Partial => ForgetByFlight(s, f)
      case Dead => ForgetByFlight(s, f)
    else s
  }

  function DoUpdateCache(s: Sys, f: nat): Sys {
    if f < |s.flights| then
      var user := s.flights[f].row.user;
      match s.flights[f].phase
      case Saved(g, expiresAt) =>
        SetFlight(s.(cache := s.cache[user := CacheEntry(g, expiresAt)]), f, Settled(Some(g)))
      case Deleted => SetFlight(s.(cache := s.cache - {user}), f, Settled(None))
      case _ => s
    else s
  }

  /** The `finally` that forgets the promise; waiters resume after it. */
  function DoFinally(s: Sys, f: nat): Sys {
    if f < |s.flights| && s.flights[f].phase.Settled? then
      SetFlight(s.(promises := s.promises - {s.flights[f].row.user}), f, Done(s.flights[f].phase.result))
    else s
  }

  function DoCallbackStart(s: Sys, user: User): Sys {
    s.(callbacks := s.callbacks + [Callback(user, CodeSent)])
  }

  function DoGrantCode(s: Sys, k: nat, expiresIn: int): Sys {
    if k < |s.callbacks| && s.callbacks[k].at.CodeSent? then
      SetCallback(Issue(s, s.callbacks[k].user, CallbackOf(k)), k, CodeAnswered(Tokens(|s.owners|, expiresIn)))
    else s
  }

  function DoCodeReply(s: Sys, k: nat, at: CallbackAt): Sys {
    if k < |s.callbacks| && s.callbacks[k].at.CodeSent? then SetCallback(s, k, at) else s
  }

  function DoCallbackRead(s: Sys, k: nat): Sys {
    if k < |s.callbacks| && s.callbacks[k].at.CodeAnswered? then
      var user := s.callbacks[k].user;
      SetCallback(s, k, FoundRow(if user in s.rows then Some(s.rows[user].id) else None, s.callbacks[k].at.reply))
    else s
  }

  /** The `save` of a new connection under the id found, or inserted under a fresh one. */
  function StoreByCallback(s: Sys, k: nat, existing: Option<int>, row: Row): Sys
    requires k < |s.callbacks|
  {
    if existing.None? && row.user in s.rows then SetCallback(s, k, Finished)
    else
      match SaveRow(s.rows, row)
      case None => SetCallback(s, k, Finished)
      case Some(rows) =>
        SetCallback(
          s.(rows := rows, homes := s.homes[row.grant := row.id], ids := s.ids[row.id := row.user]),
          k, RowSaved(row.grant, row.accessExpires))
  }

  function ForgetByCallback(s: Sys, k: nat, existing: Option<int>): Sys
    requires k < |s.callbacks|
  {
    if existing.None? then SetCallback(s, k, Finished)
    else SetCallback(s.(rows := DeleteRow(s.rows, existing.value)), k, RowDeleted)
  }

  /** The table makes a fresh id for an insert: the event is not enabled for one it has made before. */
  function DoCallbackPersist(s: Sys, k: nat, now: int, freshId: int): Sys {
    if k < |s.callbacks| && s.callbacks[k].at.FoundRow? then
      var existing := s.callbacks[k].at.existing;
      match s.callbacks[k].at.reply
      case Tokens(g, expiresIn) =>
        var id := if existing.Some? then existing.value else freshId;
        if existing.None? && freshId in s.ids then s
        else StoreByCallback(s, k, existing, Row(id, s.callbacks[k].user, g, now + expiresIn * 1000))
      case _ => ForgetByCallback(s, k, existing)
    else s
  }

  function DoCallbackFinish(s: Sys, k: nat): Sys {
    if k < |s.callbacks| then
      var user := s.callbacks[k].user;
      match s.callbacks[k].at
      case RowSaved(g, expiresAt) => SetCallback(s.(cache := s.cache[user := CacheEntry(g, expiresAt)]), k, Finished)
      case RowDeleted => SetCallback(s.(cache := s.cache - {user}), k, Finished)
      case _ => s
    else s
  }

  function Step(s: Sys, e: Event): Sys {
    match e
    case CallGet(user, now) => DoCallGet(s, user, now)
    case CallForce(user) => DoCallForce(s, user)
    case ReadRow(c) => DoReadRow(s, c)
    case Resume(c, now) => DoResume(s, c, now)
    case Wake(c) => DoWake(s, c)
    case CronRead(now, users) => DoCronRead(s, now, users)
    case CronNext(k) => DoCronNext(s, k)
    case CronWake(k) => DoCronWake(s, k)
    case Accept(f, expiresIn) => DoAccept(s, f, expiresIn)
    case AcceptPartial(f) => DoAcceptPartial(s, f)
    case Reject(f) => DoRefuse(s, f, Dead)
    case FailCall(f) => DoRefuse(s, f, Failed)
    case Persist(f, now) => DoPersist(s, f, now)
    case UpdateCache(f) => DoUpdateCache(s, f)
    case Finally(f) => DoFinally(s, f)
    case CallbackStart(user) => DoCallbackStart(s, user)
    case GrantCode(k, expiresIn) => DoGrantCode(s, k, expiresIn)
    case GrantCodePartial(k) => DoCodeReply(s, k, CodeAnswered(Partial))
    case RefuseCode(k) => DoCodeReply(s, k, Finished)
    case CallbackRead(k) => DoCallbackRead(s, k)
    case CallbackPersist(k, now, freshId) => DoCallbackPersist(s, k, now, freshId)
    case CallbackFinish(k) => DoCallbackFinish(s, k)
  }

  function Run(s: Sys, events: seq<Event>): Sys {
    if events == [] then s else Step(Run(s, events[..|events| - 1]), events[|events| - 1])
  }
}
