/** The expiry each grant of the refresh protocol was issued with, and that every expiry on record is that one. */
module AuthTimes {
  import opened Auth
  import opened AuthSafety
  import opened AuthStale
  import opened Seqs

  // ----- What a grant was issued with -----

  /** The server issues the grant at this event, for so many seconds. */
  predicate Issues(t: Sys, e: Event, grant: nat, expiresIn: int) {
    match e
    case Accept(f, x) => CanAccept(t, f) && grant == |t.owners| && x == expiresIn
    case GrantCode(k, x) =>
      k < |t.callbacks| && t.callbacks[k].at.CodeSent? && grant == |t.owners| && x == expiresIn
    case _ => false
  }

  /** The service takes the answer that carries the grant at this event, and reads this clock. */
  predicate Takes(t: Sys, e: Event, grant: nat, clock: int) {
    match e
    case Persist(f, now) =>
      && f < |t.flights| && t.flights[f].phase.Answered?
      && t.flights[f].phase.reply.Tokens? && t.flights[f].phase.reply.grant == grant && now == clock
    case CallbackPersist(k, now, freshId) =>
      && k < |t.callbacks| && t.callbacks[k].at.FoundRow?
      && t.callbacks[k].at.reply.Tokens? && t.callbacks[k].at.reply.grant == grant && now == clock
      && (t.callbacks[k].at.existing.Some? || freshId !in t.ids)
    case _ => false
  }

  ghost predicate Issued(s: Sys, events: seq<Event>, grant: nat, expiresIn: int) {
    exists i :: 0 <= i < |events| && Issues(At(s, events, i), events[i], grant, expiresIn)
  }

  ghost predicate TakenAt(s: Sys, events: seq<Event>, i: nat, grant: nat, clock: int) {
    i < |events| && Takes(At(s, events, i), events[i], grant, clock)
  }

  predicate StoredUntil(s: Sys, user: User, grant: nat, at: int) {
    user in s.rows && s.rows[user].grant == grant && s.rows[user].accessExpires == at
  }

  /** The grant expires at that time: so many seconds after its answer was taken, or as found at the start. */
  ghost predicate Expires(s: Sys, events: seq<Event>, grant: nat, at: int) {
    || (exists user :: StoredUntil(s, user, grant, at))
    || (exists i: nat, clock, expiresIn ::
          && TakenAt(s, events, i, grant, clock) && Issued(s, events[..i], grant, expiresIn)
          && at == clock + 1000 * expiresIn)
  }

  // ----- Every recorded expiry is the issued one -----

  ghost predicate RowDated(row: Row, dates: iset<(nat, int)>) {
    (row.grant, row.accessExpires) in dates
  }

  ghost predicate PhaseDated(phase: Phase, issued: iset<(nat, int)>, dates: iset<(nat, int)>) {
    match phase
    case Answered(Tokens(g, x)) => (g, x) in issued
    case Saved(g, at) => (g, at) in dates
    case _ => true
  }

  ghost predicate CallbackDated(at: CallbackAt, issued: iset<(nat, int)>, dates: iset<(nat, int)>) {
    match at
    case CodeAnswered(Tokens(g, x)) => (g, x) in issued
    case FoundRow(_, Tokens(g, x)) => (g, x) in issued
    case RowSaved(g, until) => (g, until) in dates
    case _ => true
  }

  ghost predicate CallerDated(at: CallerAt, dates: iset<(nat, int)>) {
    at.HasRow? && at.row.Some? ==> RowDated(at.row.value, dates)
  }

  ghost predicate RowsDated(t: Sys, dates: iset<(nat, int)>) {
    && (forall u :: u in t.rows ==> RowDated(t.rows[u], dates))
    && (forall u :: u in t.cache ==> (t.cache[u].grant, t.cache[u].expiresAt) in dates)
  }

  ghost predicate FlightsDated(t: Sys, issued: iset<(nat, int)>, dates: iset<(nat, int)>) {
    forall f :: 0 <= f < |t.flights| ==> PhaseDated(t.flights[f].phase, issued, dates)
  }

  ghost predicate CallersDated(t: Sys, dates: iset<(nat, int)>) {
    && (forall c :: 0 <= c < |t.callers| ==> CallerDated(t.callers[c].at, dates))
    && (forall k :: 0 <= k < |t.crons| ==> forall row :: row in t.crons[k].todo ==> RowDated(row, dates))
  }

  ghost predicate CallbacksDated(t: Sys, issued: iset<(nat, int)>, dates: iset<(nat, int)>) {
    forall k :: 0 <= k < |t.callbacks| ==> CallbackDated(t.callbacks[k].at, issued, dates)
  }

  ghost predicate Dated(t: Sys, issued: iset<(nat, int)>, dates: iset<(nat, int)>) {
    RowsDated(t, dates) && FlightsDated(t, issued, dates) && CallersDated(t, dates) && CallbacksDated(t, issued, dates)
  }

  /** The facts an event adds. */
  ghost predicate Learns(t: Sys, e: Event, issued: iset<(nat, int)>, dates: iset<(nat, int)>) {
    && (forall g: nat, x :: Issues(t, e, g, x) ==> (g, x) in issued)
    && (forall g: nat, x, clock :: Takes(t, e, g, clock) && (g, x) in issued ==> (g, clock + 1000 * x) in dates)
  }

  lemma DatedStays(t: Sys, i: iset<(nat, int)>, d: iset<(nat, int)>, i': iset<(nat, int)>, d': iset<(nat, int)>)
    requires Dated(t, i, d) && i <= i' && d <= d'
    ensures Dated(t, i', d')
  {
  }

  lemma {:induction false} StoredRowsDated(t: Sys, users: seq<User>, dates: iset<(nat, int)>)
    requires RowsDated(t, dates)
    ensures forall row :: row in StoredRows(t, users) ==> RowDated(row, dates)
  {
    if users != [] {
      StoredRowsDated(t, users[1..], dates);
    }
  }

  lemma OnceDated(t: Sys, row: Row, i: iset<(nat, int)>, d: iset<(nat, int)>)
    requires Dated(t, i, d)
    ensures Dated(Once(t, row).0, i, d)
  {
  }

  lemma CallerDatedStep(t: Sys, e: Event, i: iset<(nat, int)>, d: iset<(nat, int)>)
    requires ByCaller(e) && !e.Resume? && Dated(t, i, d)
    ensures Dated(Step(t, e), i, d)
  {
    hide RowDated;
  }

  lemma ResumeDatedStep(t: Sys, e: Event, i: iset<(nat, int)>, d: iset<(nat, int)>)
    requires e.Resume? && Dated(t, i, d)
    ensures Dated(Step(t, e), i, d)
  {
    hide Once;
    if e.caller < |t.callers| && t.callers[e.caller].at.HasRow? && t.callers[e.caller].at.row.Some? {
      var row := t.callers[e.caller].at.row.value;
      OnceDated(t, row, i, d);
      OnceLaunches(t, row);
      assert CallerDated(t.callers[e.caller].at, d);
      assert RowDated(row, d);
    }
    hide Launches, RowDated;
  }

  lemma CronDatedStep(t: Sys, e: Event, i: iset<(nat, int)>, d: iset<(nat, int)>)
    requires ByCron(e) && Dated(t, i, d)
    ensures Dated(Step(t, e), i, d)
  {
    hide Once, StoredRows, RowDated;
    if e.CronRead? {
      StoredRowsDated(t, e.users, d);
    } else if e.CronNext? && e.cron < |t.crons| && t.crons[e.cron].todo != [] {
      OnceDated(t, t.crons[e.cron].todo[0], i, d);
      OnceLaunches(t, t.crons[e.cron].todo[0]);
    }
    hide Launches;
  }

  lemma ServerDatedStep(t: Sys, e: Event, i: iset<(nat, int)>, d: iset<(nat, int)>)
    requires ByServer(e) && Dated(t, i, d) && Learns(t, e, i, d)
    ensures Dated(Step(t, e), i, d)
  {
    hide RowDated;
    if e.Accept? && CanAccept(t, e.flight) {
      assert Issues(t, e, |t.owners|, e.expiresIn);
    }
  }

  /** A saved row is dated, so is every row a save or a delete leaves. */
  lemma SavedRowsDated(rows: map<User, Row>, row: Row, id: int, d: iset<(nat, int)>)
    requires RowDated(row, d) && forall u :: u in rows ==> RowDated(rows[u], d)
    ensures SaveRow(rows, row).Some? ==>
      forall u :: u in SaveRow(rows, row).value ==> RowDated(SaveRow(rows, row).value[u], d)
  {
  }

  lemma PersistDatedStep(t: Sys, e: Event, i: iset<(nat, int)>, d: iset<(nat, int)>)
    requires e.Persist? && Dated(t, i, d) && Learns(t, e, i, d)
    ensures Dated(Step(t, e), i, d)
  {
    hide RowDated, SaveRow;
    var f := e.flight;
    if f < |t.flights| && t.flights[f].phase.Answered? && t.flights[f].phase.reply.Tokens? {
      var g, x := t.flights[f].phase.reply.grant, t.flights[f].phase.reply.expiresIn;
      assert PhaseDated(t.flights[f].phase, i, d);
      assert Takes(t, e, g, e.now) && (g, x) in i;
      StoreDated(t, f, g, e.now + 1000 * x, i, d);
    }
    hide StoreByFlight;
  }

  lemma StoreDated(t: Sys, f: nat, g: nat, at: int, i: iset<(nat, int)>, d: iset<(nat, int)>)
    requires Dated(t, i, d) && f < |t.flights| && (g, at) in d
    ensures Dated(StoreByFlight(t, f, g, at), i, d)
  {
    var row := Row(t.flights[f].row.id, t.flights[f].row.user, g, at);
    assert RowDated(row, d);
    SavedRowsDated(t.rows, row, row.id, d);
    hide RowDated, SaveRow;
  }

  lemma FinishDatedStep(t: Sys, e: Event, i: iset<(nat, int)>, d: iset<(nat, int)>)
    requires (e.UpdateCache? || e.Finally?) && Dated(t, i, d)
    ensures Dated(Step(t, e), i, d)
  {
    hide RowDated;
    if e.flight < |t.flights| {
      assert PhaseDated(t.flights[e.flight].phase, i, d);
    }
  }

  lemma CallbackStoreDated(t: Sys, k: nat, existing: Option<int>, row: Row, i: iset<(nat, int)>, d: iset<(nat, int)>)
    requires Dated(t, i, d) && k < |t.callbacks| && RowDated(row, d)
    ensures Dated(StoreByCallback(t, k, existing, row), i, d)
  {
    SavedRowsDated(t.rows, row, row.id, d);
    assert (row.grant, row.accessExpires) in d;
    hide RowDated, SaveRow;
  }

  lemma CallbackPersistDatedStep(t: Sys, e: Event, i: iset<(nat, int)>, d: iset<(nat, int)>)
    requires e.CallbackPersist? && Dated(t, i, d) && Learns(t, e, i, d)
    ensures Dated(Step(t, e), i, d)
  {
    hide StoreByCallback, ForgetByCallback;
    var k := e.callback;
    if k < |t.callbacks| && t.callbacks[k].at.FoundRow? {
      var existing := t.callbacks[k].at.existing;
      assert CallbackDated(t.callbacks[k].at, i, d);
      match t.callbacks[k].at.reply {
        case Tokens(g, x) =>
          if existing.Some? || e.freshId !in t.ids {
            assert Takes(t, e, g, e.now) && (g, x) in i;
            var id := if existing.Some? then existing.value else e.freshId;
            CallbackStoreDated(t, k, existing, Row(id, t.callbacks[k].user, g, e.now + 1000 * x), i, d);
          }
        case _ => CallbackForgetsDated(t, k, existing, i, d);
      }
    }
    hide Dated;
  }

  lemma CallbackForgetsDated(t: Sys, k: nat, existing: Option<int>, i: iset<(nat, int)>, d: iset<(nat, int)>)
    requires Dated(t, i, d) && k < |t.callbacks|
    ensures Dated(ForgetByCallback(t, k, existing), i, d)
  {
    hide RowDated;
  }

  lemma CallbackMoves(t: Sys, k: nat, at: CallbackAt, i: iset<(nat, int)>, d: iset<(nat, int)>)
    requires Dated(t, i, d) && k < |t.callbacks| && CallbackDated(at, i, d)
    ensures Dated(SetCallback(t, k, at), i, d)
  {
    hide RowDated, CallbackDated;
  }

  lemma CodeDatedStep(t: Sys, e: Event, i: iset<(nat, int)>, d: iset<(nat, int)>)
    requires (e.CallbackStart? || e.GrantCode? || e.GrantCodePartial? || e.RefuseCode?)
    requires Dated(t, i, d) && Learns(t, e, i, d)
    ensures Dated(Step(t, e), i, d)
  {
    hide RowDated;
    if e.GrantCode? && e.callback < |t.callbacks| && t.callbacks[e.callback].at.CodeSent? {
      assert Issues(t, e, |t.owners|, e.expiresIn);
    }
  }

  lemma ReadDatedStep(t: Sys, e: Event, i: iset<(nat, int)>, d: iset<(nat, int)>)
    requires e.CallbackRead? && Dated(t, i, d)
    ensures Dated(Step(t, e), i, d)
  {
    var k := e.callback;
    if k < |t.callbacks| && t.callbacks[k].at.CodeAnswered? {
      assert CallbackDated(t.callbacks[k].at, i, d);
      var user := t.callbacks[k].user;
      CallbackMoves(t, k, FoundRow(if user in t.rows then Some(t.rows[user].id) else None, t.callbacks[k].at.reply),
        i, d);
    }
    hide Dated;
  }

  lemma CallbackFinishDatedStep(t: Sys, e: Event, i: iset<(nat, int)>, d: iset<(nat, int)>)
    requires e.CallbackFinish? && Dated(t, i, d)
    ensures Dated(Step(t, e), i, d)
  {
    hide RowDated;
    if e.callback < |t.callbacks| {
      assert CallbackDated(t.callbacks[e.callback].at, i, d);
    }
  }

  lemma DatedStep(t: Sys, e: Event, i: iset<(nat, int)>, d: iset<(nat, int)>)
    requires Dated(t, i, d) && Learns(t, e, i, d)
    ensures Dated(Step(t, e), i, d)
  {
    hide Step, Dated, Learns;
    match e {
      case Persist(_, _) => PersistDatedStep(t, e, i, d);
      case Resume(_, _) => ResumeDatedStep(t, e, i, d);
      case UpdateCache(_) => FinishDatedStep(t, e, i, d);
      case Finally(_) => FinishDatedStep(t, e, i, d);
      case CallbackPersist(_, _, _) => CallbackPersistDatedStep(t, e, i, d);
      case _ =>
        if ByCaller(e) {
          CallerDatedStep(t, e, i, d);
        } else if ByCron(e) {
          CronDatedStep(t, e, i, d);
        } else if ByServer(e) {
          ServerDatedStep(t, e, i, d);
        } else if e.CallbackRead? {
          ReadDatedStep(t, e, i, d);
        } else if e.CallbackFinish? {
          CallbackFinishDatedStep(t, e, i, d);
        } else {
          CodeDatedStep(t, e, i, d);
        }
    }
  }

  // ----- Over whole runs -----

  ghost function IssuedBy(s: Sys, events: seq<Event>): iset<(nat, int)> {
    iset g: nat, x: int | Issued(s, events, g, x) :: (g, x)
  }

  ghost function DatesBy(s: Sys, events: seq<Event>): iset<(nat, int)> {
    iset g: nat, at: int | Expires(s, events, g, at) :: (g, at)
  }

  lemma IssuedGrows(s: Sys, events: seq<Event>, g: nat, x: int)
    requires events != []
    ensures var init := events[..|events| - 1];
      Issued(s, events, g, x) <==> Issued(s, init, g, x) || Issues(Run(s, init), events[|events| - 1], g, x)
  {
    hide Run, Issues;
    AtLast(s, events);
    var init, last := events[..|events| - 1], |events| - 1;
    if Issued(s, init, g, x) {
      var i :| 0 <= i < |init| && Issues(At(s, init, i), init[i], g, x);
      assert Issues(At(s, events, i), events[i], g, x);
    }
    if Issues(Run(s, init), events[last], g, x) {
      assert Issues(At(s, events, last), events[last], g, x);
    }
    if Issued(s, events, g, x) {
      var i :| 0 <= i < |events| && Issues(At(s, events, i), events[i], g, x);
      assert i < last ==> Issues(At(s, init, i), init[i], g, x);
    }
  }

  lemma ExpiryStays(s: Sys, events: seq<Event>, g: nat, at: int)
    requires events != [] && Expires(s, events[..|events| - 1], g, at)
    ensures Expires(s, events, g, at)
  {
    hide Run, Takes, Issued;
    AtLast(s, events);
    var init := events[..|events| - 1];
    if i: nat, clock, x :| TakenAt(s, init, i, g, clock) && Issued(s, init[..i], g, x) && at == clock + 1000 * x {
      assert TakenAt(s, events, i, g, clock);
      assert init[..i] == events[..i];
    }
  }

  lemma ExpiryTaken(s: Sys, events: seq<Event>, g: nat, x: int, clock: int)
    requires events != [] && Takes(Run(s, events[..|events| - 1]), events[|events| - 1], g, clock)
    requires Issued(s, events[..|events| - 1], g, x)
    ensures Expires(s, events, g, clock + 1000 * x)
  {
    hide Run, Takes, Issued;
    assert TakenAt(s, events, |events| - 1, g, clock);
  }

  lemma StepLearns(s: Sys, events: seq<Event>)
    requires events != []
    ensures var init := events[..|events| - 1];
      && IssuedBy(s, init) <= IssuedBy(s, events) && DatesBy(s, init) <= DatesBy(s, events)
      && Learns(Run(s, init), events[|events| - 1], IssuedBy(s, events), DatesBy(s, events))
  {
    hide Run, Issues, Takes, Issued, Expires;
    var init, e := events[..|events| - 1], events[|events| - 1];
    forall g: nat, x ensures Issued(s, events, g, x) <==> Issued(s, init, g, x) || Issues(Run(s, init), e, g, x) {
      IssuedGrows(s, events, g, x);
    }
    forall g: nat, at | Expires(s, init, g, at) ensures Expires(s, events, g, at) {
      ExpiryStays(s, events, g, at);
    }
    forall g: nat, x, clock | Takes(Run(s, init), e, g, clock) && Issued(s, events, g, x)
      ensures Expires(s, events, g, clock + 1000 * x)
    {
      TakesIssuesNothing(Run(s, init), e, g, x, clock);
      ExpiryTaken(s, events, g, x, clock);
    }
  }

  lemma TakesIssuesNothing(t: Sys, e: Event, g: nat, x: int, clock: int)
    requires Takes(t, e, g, clock)
    ensures !Issues(t, e, g, x)
  {
  }

  lemma {:induction false} RunDated(s: Sys, events: seq<Event>)
    requires Started(s)
    ensures Dated(Run(s, events), IssuedBy(s, events), DatesBy(s, events))
  {
    if events == [] {
      StartDated(s);
    } else {
      var init := events[..|events| - 1];
      RunDated(s, init);
      StepLearns(s, events);
      RunLast(s, events);
      hide Run, Step, Dated, Learns, IssuedBy, DatesBy;
      DatedStays(Run(s, init), IssuedBy(s, init), DatesBy(s, init), IssuedBy(s, events), DatesBy(s, events));
      DatedStep(Run(s, init), events[|events| - 1], IssuedBy(s, events), DatesBy(s, events));
    }
  }

  lemma StartDated(s: Sys)
    requires Started(s)
    ensures Dated(s, IssuedBy(s, []), DatesBy(s, []))
  {
    forall u | u in s.rows ensures Expires(s, [], s.rows[u].grant, s.rows[u].accessExpires) {
      assert StoredUntil(s, u, s.rows[u].grant, s.rows[u].accessExpires);
    }
  }
}
