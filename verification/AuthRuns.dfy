/** Three runs the single-flight guard does not rule out. */
module AuthRuns {
  import opened Seqs
  import opened Auth
  import opened AuthSafety
  import opened AuthStale

  const ALICE: User := "alice"
  const FIRST := Row(1, ALICE, 0, 0)

  /** One user, connected earlier, whose access token has run out. */
  function Connected(): Sys {
    Sys(300_000, map[ALICE := FIRST], map[], map[], [], [], [], [], [ALICE], [Earlier], map[0 := 1], map[1 := ALICE],
        {}, {})
  }

  function RunFrom(s: Sys, events: seq<Event>): Sys
    decreases |events|
  {
    if events == [] then s else RunFrom(Step(s, events[0]), events[1..])
  }

  lemma {:induction false} RunFromIsRun(s: Sys, events: seq<Event>, more: seq<Event>)
    ensures RunFrom(Run(s, events), more) == Run(s, events + more)
    decreases |more|
  {
    hide Step;
    if more == [] {
      assert events + more == events;
    } else {
      var next := events + [more[0]];
      assert next[..|events|] == events;
      RunFromIsRun(s, next, more[1..]);
      assert next + more[1..] == events + more;
    }
  }

  lemma {:induction false} RunFromConcat(s: Sys, a: seq<Event>, b: seq<Event>)
    ensures RunFrom(s, a + b) == RunFrom(RunFrom(s, a), b)
    decreases |a|
  {
    if a == [] {
      assert a + b == b;
    } else {
      assert (a + b)[1..] == a[1..] + b;
      RunFromConcat(Step(s, a[0]), a[1..], b);
    }
  }

  lemma RunFrom3(s: Sys, a: Event, b: Event, c: Event)
    ensures RunFrom(s, [a, b, c]) == Step(Step(Step(s, a), b), c)
  {
    assert [a, b, c][1..] == [b, c] && [b, c][1..] == [c] && [c][1..] == [];
    hide Step;
    assert RunFrom(Step(Step(s, a), b), [c]) == Step(Step(Step(s, a), b), c);
    assert RunFrom(Step(s, a), [b, c]) == RunFrom(Step(Step(s, a), b), [c]);
  }

  // ----- A row read before a refresh, handed over after it -----

  function Callers(a: CallerAt, b: CallerAt): seq<Caller> {
    [Caller(ALICE, true, a), Caller(ALICE, true, b)]
  }

  function BothRead(): Sys {
    Connected().(callers := Callers(HasRow(Some(FIRST)), HasRow(Some(FIRST))))
  }

  lemma TwoReads()
    ensures RunFrom(Connected(), [CallForce(ALICE), CallForce(ALICE), ReadRow(0)] + [ReadRow(1)]) == BothRead()
  {
    var s0 := Connected();
    RunFrom3(s0, CallForce(ALICE), CallForce(ALICE), ReadRow(0));
    RunFromConcat(s0, [CallForce(ALICE), CallForce(ALICE), ReadRow(0)], [ReadRow(1)]);
    hide RunFrom;
    var s1 := Step(s0, CallForce(ALICE));
    assert s1 == s0.(callers := [Caller(ALICE, true, Reading)]);
    var s2 := Step(s1, CallForce(ALICE));
    assert s2 == s0.(callers := Callers(Reading, Reading));
    var s3 := Step(s2, ReadRow(0));
    assert s3 == s0.(callers := Callers(HasRow(Some(FIRST)), Reading));
    assert RunFrom(s3, [ReadRow(1)]) == Step(s3, ReadRow(1)) by { RunFrom1(s3, ReadRow(1)); }
  }

  lemma RunFrom1(s: Sys, a: Event)
    ensures RunFrom(s, [a]) == Step(s, a)
  {
    assert [a][1..] == [];
    hide Step;
  }

  /** The first caller's refresh has been saved; the second still holds the row it read before. */
  function Refreshed(): Sys {
    BothRead().(
      rows := map[ALICE := Row(1, ALICE, 1, 1_800_000)], promises := map[ALICE := 0],
      flights := [Flight(FIRST, Saved(1, 1_800_000))], callers := Callers(Waiting(0), HasRow(Some(FIRST))),
      owners := [ALICE, ALICE], holders := [Earlier, FlightOf(0)], homes := map[0 := 1, 1 := 1], spent := {0})
  }

  lemma FirstRefresh()
    ensures RunFrom(BothRead(), [Resume(0, 0), Accept(0, 1800), Persist(0, 0)]) == Refreshed()
  {
    var s0 := BothRead();
    RunFrom3(s0, Resume(0, 0), Accept(0, 1800), Persist(0, 0));
    hide RunFrom;
    var s1 := Step(s0, Resume(0, 0));
    assert s1 == s0.(promises := map[ALICE := 0], flights := [Flight(FIRST, Sent)],
                     callers := Callers(Waiting(0), HasRow(Some(FIRST))));
    var s2 := Step(s1, Accept(0, 1800));
    assert s2 == s1.(flights := [Flight(FIRST, Answered(Tokens(1, 1800)))],
                     owners := [ALICE, ALICE], holders := [Earlier, FlightOf(0)], spent := {0});
  }

  /** The second caller's flight, sent on the spent token. */
  function SentAgain(): Sys {
    Refreshed().(
      cache := map[ALICE := CacheEntry(1, 1_800_000)], promises := map[ALICE := 1],
      flights := [Flight(FIRST, Done(Some(1))), Flight(FIRST, Sent)],
      callers := Callers(Waiting(0), Waiting(1)), resent := {0})
  }

  function HandedOver(): Sys {
    Refreshed().(cache := map[ALICE := CacheEntry(1, 1_800_000)], flights := [Flight(FIRST, Settled(Some(1)))])
  }

  lemma FirstSettles()
    ensures Step(Refreshed(), UpdateCache(0)) == HandedOver()
    ensures Step(HandedOver(), Finally(0))
         == HandedOver().(promises := map[], flights := [Flight(FIRST, Done(Some(1)))])
  {
  }

  lemma StaleHandOver()
    ensures RunFrom(Refreshed(), [UpdateCache(0), Finally(0), Resume(1, 0)]) == SentAgain()
  {
    RunFrom3(Refreshed(), UpdateCache(0), Finally(0), Resume(1, 0));
    FirstSettles();
    SecondSends();
    hide RunFrom, Step;
  }

  lemma SecondSends()
    ensures Step(HandedOver().(promises := map[], flights := [Flight(FIRST, Done(Some(1)))]), Resume(1, 0))
         == SentAgain()
  {
  }

  lemma DeadReplyForgets()
    ensures var t := RunFrom(SentAgain(), [Reject(1), Persist(1, 0), UpdateCache(1)]);
      ALICE !in t.rows && t.resent == {0} && 1 !in t.spent
  {
    var s0 := SentAgain();
    RunFrom3(s0, Reject(1), Persist(1, 0), UpdateCache(1));
    hide RunFrom;
    var s1 := Step(s0, Reject(1));
    assert s1 == Refused();
    RefusedIsDeleted();
    hide SentAgain;
  }

  function Refused(): Sys {
    SentAgain().(flights := [Flight(FIRST, Done(Some(1))), Flight(FIRST, Answered(Dead))])
  }

  lemma RefusedIsDeleted()
    ensures Step(Refused(), Persist(1, 0))
         == Refused().(rows := map[], flights := [Flight(FIRST, Done(Some(1))), Flight(FIRST, Deleted)])
  {
  }

  function StaleRun(): seq<Event> {
    [CallForce(ALICE), CallForce(ALICE), ReadRow(0)] + [ReadRow(1)]
    + [Resume(0, 0), Accept(0, 1800), Persist(0, 0)]
    + [UpdateCache(0), Finally(0), Resume(1, 0)]
    + [Reject(1), Persist(1, 0), UpdateCache(1)]
  }

  /**
   * Without freshness the promise fails: a caller that read its row before a refresh and resumes
   * after it sends the spent token, and the dead reply then deletes the row holding the live one.
   */
  lemma StaleRowResendsASpentToken()
    ensures Started(Connected())
    ensures Run(Connected(), StaleRun()).resent == {0}
    ensures ALICE !in Run(Connected(), StaleRun()).rows && 1 !in Run(Connected(), StaleRun()).spent
  {
    hide RunFrom, Run, Step, Refreshed, BothRead, SentAgain;
    var earlyReads := [CallForce(ALICE), CallForce(ALICE), ReadRow(0)] + [ReadRow(1)];
    var refresh := [Resume(0, 0), Accept(0, 1800), Persist(0, 0)];
    var again := [UpdateCache(0), Finally(0), Resume(1, 0)];
    TwoReads();
    FirstRefresh();
    StaleHandOver();
    DeadReplyForgets();
    RunFromConcat(Connected(), earlyReads, refresh);
    RunFromConcat(Connected(), earlyReads + refresh, again);
    RunFromConcat(Connected(), earlyReads + refresh + again, [Reject(1), Persist(1, 0), UpdateCache(1)]);
    RunIsRunFrom(Connected(), StaleRun());
  }

  lemma RunIsRunFrom(s: Sys, events: seq<Event>)
    ensures Run(s, events) == RunFrom(s, events)
  {
    RunFromIsRun(s, [], events);
    assert [] + events == events;
  }

  // ----- A dead reply that arrives after the user has reconnected -----

  function Sending(): Sys {
    Connected().(promises := map[ALICE := 0], flights := [Flight(FIRST, Sent)],
                 callers := [Caller(ALICE, true, Waiting(0))])
  }

  lemma OneCallSends()
    ensures RunFrom(Connected(), [CallForce(ALICE), ReadRow(0), Resume(0, 0)]) == Sending()
  {
    var s0 := Connected();
    RunFrom3(s0, CallForce(ALICE), ReadRow(0), Resume(0, 0));
    hide RunFrom;
    var s1 := Step(s0, CallForce(ALICE));
    assert s1 == s0.(callers := [Caller(ALICE, true, Reading)]);
    var s2 := Step(s1, ReadRow(0));
    assert s2 == s0.(callers := [Caller(ALICE, true, HasRow(Some(FIRST)))]);
  }

  function Authorized(): Sys {
    Sending().(callbacks := [Callback(ALICE, FoundRow(Some(1), Tokens(1, 1800)))],
               owners := [ALICE, ALICE], holders := [Earlier, CallbackOf(0)])
  }

  lemma UserAuthorizes()
    ensures RunFrom(Sending(), [CallbackStart(ALICE), GrantCode(0, 1800), CallbackRead(0)]) == Authorized()
  {
    var s0 := Sending();
    RunFrom3(s0, CallbackStart(ALICE), GrantCode(0, 1800), CallbackRead(0));
    hide RunFrom;
    var s1 := Step(s0, CallbackStart(ALICE));
    assert s1 == s0.(callbacks := [Callback(ALICE, CodeSent)]);
    var s2 := Step(s1, GrantCode(0, 1800));
    assert s2 == s1.(callbacks := [Callback(ALICE, CodeAnswered(Tokens(1, 1800)))],
                     owners := [ALICE, ALICE], holders := [Earlier, CallbackOf(0)]);
  }

  lemma LateDeadReply()
    ensures var t := RunFrom(Authorized(), [CallbackPersist(0, 0, 7), Reject(0), Persist(0, 0)]);
      ALICE !in t.rows && t.resent == {} && 1 !in t.spent
  {
    var s0 := Authorized();
    RunFrom3(s0, CallbackPersist(0, 0, 7), Reject(0), Persist(0, 0));
    hide RunFrom;
    ReconnectSaves();
    var s2 := Step(Reconnected(), Reject(0));
    assert s2 == Reconnected().(flights := [Flight(FIRST, Answered(Dead))]);
    LateReplyDeletes();
    hide Step;
  }

  function Reconnected(): Sys {
    Authorized().(rows := map[ALICE := Row(1, ALICE, 1, 1_800_000)], homes := map[0 := 1, 1 := 1],
                  callbacks := [Callback(ALICE, RowSaved(1, 1_800_000))])
  }

  lemma ReconnectSaves()
    ensures Step(Authorized(), CallbackPersist(0, 0, 7)) == Reconnected()
  {
  }

  lemma LateReplyDeletes()
    ensures Step(Reconnected().(flights := [Flight(FIRST, Answered(Dead))]), Persist(0, 0))
         == Reconnected().(rows := map[], flights := [Flight(FIRST, Deleted)])
  {
  }

  function ReconnectRun(): seq<Event> {
    [CallForce(ALICE), ReadRow(0), Resume(0, 0)]
    + [CallbackStart(ALICE), GrantCode(0, 1800), CallbackRead(0)]
    + [CallbackPersist(0, 0, 7), Reject(0), Persist(0, 0)]
  }

  /** The row is deleted by id, so a refusal that comes late removes the connection just made. */
  lemma LateRefusalUndoesReconnect()
    ensures Started(Connected())
    ensures ALICE !in Run(Connected(), ReconnectRun()).rows
    ensures 1 !in Run(Connected(), ReconnectRun()).spent && Run(Connected(), ReconnectRun()).resent == {}
  {
    hide RunFrom, Run, Step, Sending, Authorized;
    var send := [CallForce(ALICE), ReadRow(0), Resume(0, 0)];
    var authorize := [CallbackStart(ALICE), GrantCode(0, 1800), CallbackRead(0)];
    OneCallSends();
    UserAuthorizes();
    LateDeadReply();
    RunFromConcat(Connected(), send, authorize);
    RunFromConcat(Connected(), send + authorize, [CallbackPersist(0, 0, 7), Reject(0), Persist(0, 0)]);
    RunIsRunFrom(Connected(), ReconnectRun());
  }

  // ----- A reconnect answered without a refresh token -----

  function PartialReconnectRun(): seq<Event> {
    [CallbackStart(ALICE), GrantCodePartial(0), CallbackRead(0)]
  }

  /** No refresh anywhere: the answer alone removes a connection whose refresh token still works. */
  lemma PartialReconnectDeletesLiveRow()
    ensures Started(Connected()) && CallbackForgets(Run(Connected(), PartialReconnectRun()), 0)
    ensures var t := Run(Connected(), PartialReconnectRun());
      && ALICE in t.rows && t.rows[ALICE].grant == 0
      && ALICE !in Step(t, CallbackPersist(0, 0, 7)).rows && 0 !in Step(t, CallbackPersist(0, 0, 7)).spent
  {
    hide Run;
    var s0 := Connected();
    RunIsRunFrom(s0, PartialReconnectRun());
    RunFrom3(s0, CallbackStart(ALICE), GrantCodePartial(0), CallbackRead(0));
    hide RunFrom;
    var s1 := Step(s0, CallbackStart(ALICE));
    assert s1 == s0.(callbacks := [Callback(ALICE, CodeSent)]);
    var s2 := Step(s1, GrantCodePartial(0));
    assert s2 == s0.(callbacks := [Callback(ALICE, CodeAnswered(Partial))]);
    PartialAnswerForgets();
    hide Step;
  }

  lemma PartialAnswerForgets()
    ensures Step(Connected().(callbacks := [Callback(ALICE, CodeAnswered(Partial))]), CallbackRead(0))
         == Connected().(callbacks := [Callback(ALICE, FoundRow(Some(1), Partial))])
    ensures var t := Connected().(callbacks := [Callback(ALICE, FoundRow(Some(1), Partial))]);
      ALICE !in Step(t, CallbackPersist(0, 0, 7)).rows && 0 !in Step(t, CallbackPersist(0, 0, 7)).spent
  {
  }
}
