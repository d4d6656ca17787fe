/** How the enabled strategies' directions are combined into one signal. */
module Votes {
  import opened Market
  import opened Seqs

  type Id = string

  /** `Quorum` is the source's number; it is rounded down before it is used. */
  datatype Agreement = ANY | CONFIRMING | Quorum(votes: real)

  datatype Signal = Signal(at: int, strategies: seq<Id>, direction: Direction)

  function AgreementFloor(agreement: Agreement, enabledCount: nat): int {
    match agreement
    case CONFIRMING => Max(enabledCount, 1)
    case ANY => 1
    case Quorum(votes) => Max(1, votes.Floor)
  }

  /** A strategy with no entry, or a null one, has no vote. */
  function Vote(results: map<Id, Direction>, s: Id): Option<Direction> {
    if s in results then Some(results[s]) else None
  }

  function VotesFor(results: map<Id, Direction>, direction: Direction): Id -> bool {
    (s: Id) => Vote(results, s) == Some(direction)
  }

  function Voters(enabled: seq<Id>, results: map<Id, Direction>, direction: Direction): seq<Id> {
    Filter(enabled, VotesFor(results, direction))
  }

  function FirstVote(enabled: seq<Id>, results: map<Id, Direction>): Option<Direction> {
    if enabled == [] then None
    else if Vote(results, enabled[0]).Some? then Vote(results, enabled[0])
    else FirstVote(enabled[1..], results)
  }

  function Opposite(d: Direction): Direction {
    if d == CALL then PUT else CALL
  }

  /** At least `min` votes, and more than the other side. */
  predicate Wins(enabled: seq<Id>, results: map<Id, Direction>, min: int, direction: Direction) {
    && |Voters(enabled, results, direction)| >= min
    && |Voters(enabled, results, direction)| > |Voters(enabled, results, Opposite(direction))|
  }

  function Winner(enabled: seq<Id>, results: map<Id, Direction>, min: int): Option<Direction> {
    if min <= 1 then FirstVote(enabled, results)
    else if Wins(enabled, results, min, CALL) then Some(CALL)
    else if Wins(enabled, results, min, PUT) then Some(PUT)
    else None
  }

  function Combined(enabled: seq<Id>, results: map<Id, Direction>, now: int, agreement: Agreement): Option<Signal> {
    match Winner(enabled, results, AgreementFloor(agreement, |enabled|))
    case None => None
    case Some(d) => Some(Signal(now, Voters(enabled, results, d), d))
  }

  method CombineSignals(enabled: seq<Id>, results: map<Id, Direction>, now: int, agreement: Agreement)
    returns (signal: Option<Signal>)
    ensures signal == Combined(enabled, results, now, agreement)
  {
    if enabled == [] {
      return None;
    }
    var min := AgreementFloor(agreement, |enabled|);
    if min <= 1 {
      signal := FirstWins(enabled, results, now);
      return;
    }
    var calls, puts: seq<Id> := [], [];
    for i := 0 to |enabled|
      invariant calls == Voters(enabled[..i], results, CALL)
      invariant puts == Voters(enabled[..i], results, PUT)
    {
      var s := enabled[i];
      assert enabled[..i + 1] == enabled[..i] + [s];
      FilterSnoc(enabled[..i], s, VotesFor(results, CALL));
      FilterSnoc(enabled[..i], s, VotesFor(results, PUT));
      if Vote(results, s) == Some(CALL) {
        calls := calls + [s];
      } else if Vote(results, s) == Some(PUT) {
        puts := puts + [s];
      }
    }
    assert enabled[..|enabled|] == enabled;
    var callWins := |calls| >= min && |calls| > |puts|;
    var putWins := |puts| >= min && |puts| > |calls|;
    if !callWins && !putWins {
      return None;
    }
    signal := Some(Signal(now, if callWins then calls else puts, if callWins then CALL else PUT));
  }

  /** The branch for one vote: the first direction stands, and those that agree are attributed. */
  method FirstWins(enabled: seq<Id>, results: map<Id, Direction>, now: int) returns (signal: Option<Signal>)
    ensures signal == match FirstVote(enabled, results)
      case None => None
      case Some(d) => Some(Signal(now, Voters(enabled, results, d), d))
  {
    var strategies: seq<Id> := [];
    var direction: Option<Direction> := None;
    for i := 0 to |enabled|
      invariant direction == FirstVote(enabled[..i], results)
      invariant direction.None? ==> strategies == []
      invariant direction.Some? ==> strategies == Voters(enabled[..i], results, direction.value)
    {
      var s := enabled[i];
      assert enabled[..i + 1] == enabled[..i] + [s];
      FirstVoteSnoc(enabled[..i], s, results);
      var d := Vote(results, s);
      if d.Some? {
        FilterSnoc(enabled[..i], s, VotesFor(results, d.value));
        if direction.None? {
          NoVoters(enabled[..i], results, d.value);
          direction := d;
          strategies := [s];
        } else {
          FilterSnoc(enabled[..i], s, VotesFor(results, direction.value));
          if d == direction {
            strategies := strategies + [s];
          }
        }
      } else if direction.Some? {
        FilterSnoc(enabled[..i], s, VotesFor(results, direction.value));
      }
    }
    assert enabled[..|enabled|] == enabled;
    signal := if direction.None? then None else Some(Signal(now, strategies, direction.value));
  }

  lemma {:induction false} FirstVoteSnoc(enabled: seq<Id>, s: Id, results: map<Id, Direction>)
    ensures FirstVote(enabled + [s], results)
         == if FirstVote(enabled, results).Some? then FirstVote(enabled, results) else Vote(results, s)
  {
    if enabled == [] {
      assert ([s])[1..] == [];
      assert [] + [s] == [s];
    } else {
      assert (enabled + [s])[1..] == enabled[1..] + [s];
      FirstVoteSnoc(enabled[1..], s, results);
    }
  }

  lemma {:induction false} NoVoters(enabled: seq<Id>, results: map<Id, Direction>, d: Direction)
    requires FirstVote(enabled, results).None?
    ensures Voters(enabled, results, d) == []
  {
    if enabled != [] {
      NoVoters(enabled[1..], results, d);
    }
  }

  // ----- Laws -----

  /** How often a strategy votes for a direction depends only on how often it is enabled. */
  lemma {:induction false} VoterCount(enabled: seq<Id>, results: map<Id, Direction>, d: Direction, s: Id)
    ensures multiset(Voters(enabled, results, d))[s] == if Vote(results, s) == Some(d) then multiset(enabled)[s] else 0
  {
    if enabled != [] {
      assert enabled == [enabled[0]] + enabled[1..];
      VoterCount(enabled[1..], results, d, s);
    }
  }

  lemma VotersOfPermutation(enabled: seq<Id>, other: seq<Id>, results: map<Id, Direction>, d: Direction)
    requires multiset(enabled) == multiset(other)
    ensures multiset(Voters(enabled, results, d)) == multiset(Voters(other, results, d))
    ensures |Voters(enabled, results, d)| == |Voters(other, results, d)|
  {
    var a, b := Voters(enabled, results, d), Voters(other, results, d);
    forall s ensures multiset(a)[s] == multiset(b)[s] {
      VoterCount(enabled, results, d, s);
      VoterCount(other, results, d, s);
    }
    assert multiset(a) == multiset(b);
    assert |a| == |multiset(a)| && |b| == |multiset(b)|;
  }

  function HasVote(results: map<Id, Direction>): Id -> bool {
    (s: Id) => Vote(results, s).Some?
  }

  lemma {:induction false} VotesSplit(enabled: seq<Id>, results: map<Id, Direction>)
    ensures |Voters(enabled, results, CALL)| + |Voters(enabled, results, PUT)| == |Filter(enabled, HasVote(results))|
  {
    if enabled != [] {
      VotesSplit(enabled[1..], results);
      var v := Vote(results, enabled[0]);
      assert v.Some? ==> v.value.CALL? || v.value.PUT?;
    }
  }

  /** From two votes on, a direction fires exactly when it has the quorum and more than half of the votes cast. */
  lemma FiresExactlyOnMajority(enabled: seq<Id>, results: map<Id, Direction>, now: int, agreement: Agreement,
      d: Direction)
    requires AgreementFloor(agreement, |enabled|) >= 2
    ensures Combined(enabled, results, now, agreement) == Some(Signal(now, Voters(enabled, results, d), d))
       <==> |Voters(enabled, results, d)| >= AgreementFloor(agreement, |enabled|)
            && 2 * |Voters(enabled, results, d)| > |Filter(enabled, HasVote(results))|
  {
    hide Filter, Voters, AgreementFloor;
    VotesSplit(enabled, results);
  }

  /** From two votes on, the order in which strategies are enabled decides nothing but the order they are named in. */
  lemma OrderDoesNotDecide(enabled: seq<Id>, other: seq<Id>, results: map<Id, Direction>, now: int,
      agreement: Agreement)
    requires AgreementFloor(agreement, |enabled|) >= 2
    requires multiset(enabled) == multiset(other)
    ensures var a, b := Combined(enabled, results, now, agreement), Combined(other, results, now, agreement);
      && a.Some? == b.Some?
      && (a.Some? ==>
        a.value.direction == b.value.direction && multiset(a.value.strategies) == multiset(b.value.strategies))
  {
    hide Voters, Filter;
    VotersOfPermutation(enabled, other, results, CALL);
    VotersOfPermutation(enabled, other, results, PUT);
    assert |enabled| == |multiset(enabled)| && |other| == |multiset(other)|;
  }

  function Swapped(results: map<Id, Direction>): map<Id, Direction> {
    map s | s in results :: Opposite(results[s])
  }

  lemma {:induction false} SwappedVoters(enabled: seq<Id>, results: map<Id, Direction>, d: Direction)
    ensures Voters(enabled, Swapped(results), Opposite(d)) == Voters(enabled, results, d)
  {
    if enabled != [] {
      SwappedVoters(enabled[1..], results, d);
    }
  }

  lemma {:induction false} SwappedFirst(enabled: seq<Id>, results: map<Id, Direction>)
    ensures var v := FirstVote(enabled, results);
      FirstVote(enabled, Swapped(results)) == if v.None? then None else Some(Opposite(v.value))
  {
    if enabled != [] {
      SwappedFirst(enabled[1..], results);
    }
  }

  /** Neither direction is favoured: swapping every vote swaps the signal, at every agreement. */
  lemma SwappingVotesSwapsTheSignal(enabled: seq<Id>, results: map<Id, Direction>, now: int, agreement: Agreement)
    ensures var a, b := Combined(enabled, results, now, agreement), Combined(enabled, Swapped(results), now, agreement);
      b == if a.None? then None else Some(a.value.(direction := Opposite(a.value.direction)))
  {
    SwappedVoters(enabled, results, CALL);
    SwappedVoters(enabled, results, PUT);
    SwappedFirst(enabled, results);
  }

  /** A quorum of k or more is met with a strict majority; asking for one vote fewer gives the same signal. */
  lemma MoreVotesImplyFewer(enabled: seq<Id>, results: map<Id, Direction>, now: int, k: nat)
    requires k >= 2
    requires Combined(enabled, results, now, Quorum((k + 1) as real)).Some?
    ensures Combined(enabled, results, now, Quorum(k as real))
         == Combined(enabled, results, now, Quorum((k + 1) as real))
  {
    assert (k as real).Floor == k && ((k + 1) as real).Floor == k + 1;
  }

  lemma {:induction false} EveryoneVotes(enabled: seq<Id>, results: map<Id, Direction>, d: Direction)
    ensures |Voters(enabled, results, d)| <= |enabled|
    ensures |Voters(enabled, results, d)| == |enabled| <==> forall s :: s in enabled ==> Vote(results, s) == Some(d)
  {
    if enabled != [] {
      EveryoneVotes(enabled[1..], results, d);
    }
  }

  lemma {:induction false} NobodyVotesTwice(enabled: seq<Id>, results: map<Id, Direction>)
    ensures |Voters(enabled, results, CALL)| + |Voters(enabled, results, PUT)| <= |enabled|
  {
    if enabled != [] {
      NobodyVotesTwice(enabled[1..], results);
    }
  }

  /** Over one or more strategies, CONFIRMING fires exactly when all of them vote the same way. */
  lemma ConfirmingIsUnanimity(enabled: seq<Id>, results: map<Id, Direction>, now: int, d: Direction)
    requires enabled != []
    ensures (Combined(enabled, results, now, CONFIRMING).Some?
         && Combined(enabled, results, now, CONFIRMING).value.direction == d)
       <==> forall s :: s in enabled ==> Vote(results, s) == Some(d)
  {
    if |enabled| == 1 {
      assert enabled[1..] == [] && FirstVote(enabled, results) == Vote(results, enabled[0]);
      assert enabled[0] in enabled;
    }
    EveryoneVotes(enabled, results, CALL);
    EveryoneVotes(enabled, results, PUT);
    NobodyVotesTwice(enabled, results);
  }

  /** A quorum under two is one vote, and from two on it counts whole votes. */
  lemma QuorumsAreWhole(enabled: seq<Id>, results: map<Id, Direction>, now: int, votes: real, k: nat)
    ensures votes < 2.0 ==> Combined(enabled, results, now, Quorum(votes)) == Combined(enabled, results, now, ANY)
    ensures 2 <= k && k as real <= votes < (k + 1) as real ==>
      forall d :: Combined(enabled, results, now, Quorum(votes)) == Some(Signal(now, Voters(enabled, results, d), d))
        <==> |Voters(enabled, results, d)| >= k
             && |Voters(enabled, results, d)| > |Voters(enabled, results, Opposite(d))|
  {
    if 2 <= k && k as real <= votes < (k + 1) as real {
      assert votes.Floor == k;
      forall d
        ensures Combined(enabled, results, now, Quorum(votes)) == Some(Signal(now, Voters(enabled, results, d), d))
          <==> |Voters(enabled, results, d)| >= k
               && |Voters(enabled, results, d)| > |Voters(enabled, results, Opposite(d))|
      {
      }
    }
    hide Voters;
  }

  /**
   * One vote is not a weaker quorum: when two votes fire, one vote fires too, and the same way
   * exactly when the first enabled strategy that votes is on the winning side.
   */
  lemma OneVoteAgreesExactly(enabled: seq<Id>, results: map<Id, Direction>, now: int)
    requires Combined(enabled, results, now, Quorum(2.0)).Some?
    ensures Combined(enabled, results, now, ANY).Some?
    ensures Combined(enabled, results, now, ANY) == Combined(enabled, results, now, Quorum(2.0))
       <==> FirstVote(enabled, results) == Some(Combined(enabled, results, now, Quorum(2.0)).value.direction)
  {
    assert 2.0.Floor == 2;
    if FirstVote(enabled, results).None? {
      NoVoters(enabled, results, CALL);
      NoVoters(enabled, results, PUT);
    }
  }

  /** Three strategies, the first outvoted: one vote buys calls where two votes buy puts, and reordering flips it. */
  lemma OneVoteCanDisagree(now: int)
    ensures var results := map["a" := CALL, "b" := PUT, "c" := PUT];
      && Combined(["a", "b", "c"], results, now, ANY).Some?
      && Combined(["a", "b", "c"], results, now, ANY).value.direction == CALL
      && Combined(["b", "a", "c"], results, now, ANY).Some?
      && Combined(["b", "a", "c"], results, now, ANY).value.direction == PUT
      && Combined(["a", "b", "c"], results, now, Quorum(2.0)) == Some(Signal(now, ["b", "c"], PUT))
  {
    var results := map["a" := CALL, "b" := PUT, "c" := PUT];
    var all := ["a", "b", "c"];
    assert 2.0.Floor == 2;
    assert Vote(results, "a") == Some(CALL) && Vote(results, "b") == Some(PUT) && Vote(results, "c") == Some(PUT);
    assert all[1..] == ["b", "c"] && ["b", "c"][1..] == ["c"] && ["c"][1..] == [];
    assert Voters(["c"], results, PUT) == ["c"] && Voters(["c"], results, CALL) == [];
    assert Voters(["b", "c"], results, PUT) == ["b", "c"] && Voters(["b", "c"], results, CALL) == [];
    assert Voters(all, results, PUT) == ["b", "c"] && Voters(all, results, CALL) == ["a"];
  }
}
