/** Votes on threads and comments: a collection of vote records, and on every target two cached counters that the
    handler changes by increments computed from the old and the new vote. */
module Votes {
  import opened Common

  datatype Kind = Thread | Comment

  datatype Target = Target(kind: Kind, id: nat)

  datatype Vote = Vote(user: nat, target: Target, value: int)

  datatype Counters = Counters(upvotes: int, downvotes: int)

  datatype Ballot = Ballot(user: nat, target: Target, value: int)

  datatype Board = Board(votes: seq<Vote>, counters: map<Target, Counters>)

  predicate Valid(b: Ballot) { b.value == -1 || b.value == 0 || b.value == 1 }

  /** The position of the user's vote on the target, or the length when there is none. */
  function Find(votes: seq<Vote>, user: nat, target: Target): (i: nat)
    ensures i <= |votes|
    ensures i < |votes| ==> votes[i].user == user && votes[i].target == target
    ensures forall j :: 0 <= j < i ==> votes[j].user != user || votes[j].target != target
  {
    FirstWhere((v: Vote) => v.user == user && v.target == target, votes)
  }

  function OldValue(votes: seq<Vote>, b: Ballot): int {
    var i := Find(votes, b.user, b.target);
    if i < |votes| then votes[i].value else 0
  }

  function Recorded(votes: seq<Vote>, b: Ballot): seq<Vote> {
    var i := Find(votes, b.user, b.target);
    if b.value == 0 then (if i < |votes| then votes[..i] + votes[i + 1..] else votes)
    else if i < |votes| then votes[..i] + [votes[i].(value := b.value)] + votes[i + 1..]
    else votes + [Vote(b.user, b.target, b.value)]
  }

  function Incremented(c: Counters, before: int, after: int): Counters {
    var change := after - before;
    if change > 0 then Counters(c.upvotes + change, c.downvotes + if before < 0 then -before else 0)
    else if change < 0 then Counters(c.upvotes + (if before > 0 then -before else 0), c.downvotes - change)
    else c
  }

  function Cast(board: Board, b: Ballot): Board {
    if !Valid(b) then board
    else
      var counters :=
        if b.target in board.counters then
          board.counters[b.target := Incremented(board.counters[b.target], OldValue(board.votes, b), b.value)]
        else board.counters;
      Board(Recorded(board.votes, b), counters)
  }

  function BoardAfter(start: Board, ballots: seq<Ballot>): Board {
    if ballots == [] then start else Cast(BoardAfter(start, ballots[..|ballots| - 1]), ballots[|ballots| - 1])
  }

  /** A board before anyone has voted. */
  predicate Fresh(start: Board) {
    start.votes == [] && forall t :: t in start.counters ==> start.counters[t] == Counters(0, 0)
  }

  // ---- The records ----

  predicate OnePerUser(votes: seq<Vote>) {
    && (forall i, j :: 0 <= i < j < |votes| ==> votes[i].user != votes[j].user || votes[i].target != votes[j].target)
    && (forall i :: 0 <= i < |votes| ==> votes[i].value == 1 || votes[i].value == -1)
  }

  /** The last value from -1 to 1 that the user sent for the target, 0 when there is none. */
  function LastSent(ballots: seq<Ballot>, user: nat, target: Target): int {
    if ballots == [] then 0
    else
      var b := ballots[|ballots| - 1];
      if b.user == user && b.target == target && -1 <= b.value <= 1 then b.value
      else LastSent(ballots[..|ballots| - 1], user, target)
  }

  lemma FindInOnePerUser(votes: seq<Vote>, user: nat, target: Target, k: nat)
    requires OnePerUser(votes) && k < |votes| && votes[k].user == user && votes[k].target == target
    ensures Find(votes, user, target) == k
  {
  }

  lemma RemovedKeeps(votes: seq<Vote>, i: nat)
    requires OnePerUser(votes) && i < |votes|
    ensures OnePerUser(votes[..i] + votes[i + 1..])
    ensures forall x :: x in votes[..i] + votes[i + 1..] ==> x.user != votes[i].user || x.target != votes[i].target
  {
    var after := votes[..i] + votes[i + 1..];
    assert forall j :: 0 <= j < |after| ==> after[j] == votes[if j < i then j else j + 1];
  }

  lemma ReplacedKeeps(votes: seq<Vote>, i: nat, value: int)
    requires OnePerUser(votes) && i < |votes| && (value == 1 || value == -1)
    ensures OnePerUser(votes[..i] + [votes[i].(value := value)] + votes[i + 1..])
  {
    var after := votes[..i] + [votes[i].(value := value)] + votes[i + 1..];
    assert forall j :: 0 <= j < |after| ==> after[j] == if j == i then votes[i].(value := value) else votes[j];
  }

  lemma AddedKeeps(votes: seq<Vote>, v: Vote)
    requires OnePerUser(votes) && (v.value == 1 || v.value == -1)
    requires forall x :: x in votes ==> x.user != v.user || x.target != v.target
    ensures OnePerUser(votes + [v])
  {
    var after := votes + [v];
    assert forall j :: 0 <= j < |votes| ==> after[j] == votes[j] && votes[j] in votes;
  }

  lemma RecordedKeeps(votes: seq<Vote>, b: Ballot)
    requires OnePerUser(votes) && Valid(b)
    ensures OnePerUser(Recorded(votes, b))
    ensures OldValue(Recorded(votes, b), b) == b.value
  {
    var i, after := Find(votes, b.user, b.target), Recorded(votes, b);
    if b.value == 0 {
      if i < |votes| {
        RemovedKeeps(votes, i);
      }
      NotFound(after, b);
    } else {
      if i < |votes| {
        ReplacedKeeps(votes, i, b.value);
      } else {
        AddedKeeps(votes, Vote(b.user, b.target, b.value));
      }
      FindInOnePerUser(after, b.user, b.target, i);
    }
  }

  lemma NotFound(votes: seq<Vote>, b: Ballot)
    requires forall x :: x in votes ==> x.user != b.user || x.target != b.target
    ensures OldValue(votes, b) == 0
  {
    assert forall j :: 0 <= j < |votes| ==> votes[j] in votes;
  }

  /** Where the record of another user or target is after recording. */
  lemma OtherRecordStays(votes: seq<Vote>, b: Ballot, k: nat)
    requires k < |votes| && (votes[k].user != b.user || votes[k].target != b.target)
    ensures votes[k] in Recorded(votes, b)
  {
    var i, after := Find(votes, b.user, b.target), Recorded(votes, b);
    var at := if b.value == 0 && i < k then k - 1 else k;
    assert after[at] == votes[k];
  }

  lemma RecordedKeepsOthers(votes: seq<Vote>, b: Ballot, other: Ballot)
    requires OnePerUser(votes) && Valid(b)
    requires other.user != b.user || other.target != b.target
    ensures OldValue(Recorded(votes, b), other) == OldValue(votes, other)
  {
    RecordedKeeps(votes, b);
    var after, k := Recorded(votes, b), Find(votes, other.user, other.target);
    if k < |votes| {
      OtherRecordStays(votes, b, k);
      var at :| 0 <= at < |after| && after[at] == votes[k];
      FindInOnePerUser(after, other.user, other.target, at);
    } else {
      NoOtherIsAdded(votes, b, other);
      NotFound(after, other);
    }
  }

  lemma NoOtherIsAdded(votes: seq<Vote>, b: Ballot, other: Ballot)
    requires Find(votes, other.user, other.target) == |votes|
    requires other.user != b.user || other.target != b.target
    ensures forall x :: x in Recorded(votes, b) ==> x.user != other.user || x.target != other.target
  {
    forall x | x in Recorded(votes, b)
      ensures x in votes || (x.user == b.user && x.target == b.target)
    {
    }
  }

  /** In every sequential run there is at most one record for a user and a target, and it holds the last value the
      user sent; after a 0 there is none. */
  lemma {:induction false} RecordIsLastSent(start: Board, ballots: seq<Ballot>, user: nat, target: Target)
    requires Fresh(start)
    ensures var votes := BoardAfter(start, ballots).votes;
      && OnePerUser(votes)
      && OldValue(votes, Ballot(user, target, 0)) == LastSent(ballots, user, target)
      && (LastSent(ballots, user, target) == 0 ==> forall v :: v in votes ==> v.user != user || v.target != target)
      && (LastSent(ballots, user, target) != 0 ==> Vote(user, target, LastSent(ballots, user, target)) in votes)
  {
    if ballots != [] {
      var init, b := ballots[..|ballots| - 1], ballots[|ballots| - 1];
      RecordIsLastSent(start, init, user, target);
      var votes := BoardAfter(start, init).votes;
      if Valid(b) {
        RecordedKeeps(votes, b);
        if b.user != user || b.target != target {
          RecordedKeepsOthers(votes, b, Ballot(user, target, 0));
        }
      }
    }
  }

  // ---- The counters ----

  /** How many records hold the value for the target. */
  function Live(votes: seq<Vote>, target: Target, value: int): nat {
    if votes == [] then 0
    else (if votes[0].target == target && votes[0].value == value then 1 else 0) + Live(votes[1..], target, value)
  }

  lemma {:induction false} LiveConcat(a: seq<Vote>, b: seq<Vote>, target: Target, value: int)
    ensures Live(a + b, target, value) == Live(a, target, value) + Live(b, target, value)
  {
    if a == [] {
      assert a + b == b;
    } else {
      assert (a + b)[1..] == a[1..] + b;
      LiveConcat(a[1..], b, target, value);
    }
  }

  lemma LiveAfterRecording(votes: seq<Vote>, b: Ballot, value: int)
    requires OnePerUser(votes) && Valid(b) && value != 0
    ensures Live(Recorded(votes, b), b.target, value) ==
            Live(votes, b.target, value) - Is(OldValue(votes, b) == value) + Is(b.value == value)
  {
    var i := Find(votes, b.user, b.target);
    if i < |votes| {
      var before, mine, after := votes[..i], [votes[i]], votes[i + 1..];
      assert votes == before + mine + after;
      LiveConcat(before + mine, after, b.target, value);
      LiveConcat(before, mine, b.target, value);
      LiveConcat(before, after, b.target, value);
      LiveConcat(before + [votes[i].(value := b.value)], after, b.target, value);
      LiveConcat(before, [votes[i].(value := b.value)], b.target, value);
    } else {
      LiveConcat(votes, [Vote(b.user, b.target, b.value)], b.target, value);
    }
  }

  lemma LiveOfOtherTarget(votes: seq<Vote>, b: Ballot, target: Target, value: int)
    requires b.target != target
    ensures Live(Recorded(votes, b), target, value) == Live(votes, target, value)
  {
    var i := Find(votes, b.user, b.target);
    if i < |votes| {
      var before, mine, after := votes[..i], [votes[i]], votes[i + 1..];
      assert votes == before + mine + after;
      LiveConcat(before + mine, after, target, value);
      LiveConcat(before, mine, target, value);
      LiveConcat(before, after, target, value);
      LiveConcat(before + [votes[i].(value := b.value)], after, target, value);
      LiveConcat(before, [votes[i].(value := b.value)], target, value);
    } else {
      LiveConcat(votes, [Vote(b.user, b.target, b.value)], target, value);
    }
  }

  /** The users whose last vote on the target has the value. */
  function Voters(ballots: seq<Ballot>, target: Target, value: int): set<nat> {
    set i | 0 <= i < |ballots| && LastSent(ballots, ballots[i].user, target) == value :: ballots[i].user
  }

  /** How often in the run a user whose last vote on the target had the value sent another value from -1 to 1. */
  function Departures(ballots: seq<Ballot>, target: Target, value: int): nat {
    if ballots == [] then 0
    else
      var init, b := ballots[..|ballots| - 1], ballots[|ballots| - 1];
      Departures(init, target, value) +
      Is(b.target == target && -1 <= b.value <= 1 && LastSent(init, b.user, target) == value && b.value != value)
  }

  lemma {:induction false} NeverVoted(ballots: seq<Ballot>, user: nat, target: Target)
    ensures LastSent(ballots, user, target) != 0 ==> exists i :: 0 <= i < |ballots| && ballots[i].user == user
  {
    if ballots != [] && LastSent(ballots, user, target) != 0 {
      var init := ballots[..|ballots| - 1];
      NeverVoted(init, user, target);
      if ballots[|ballots| - 1].user != user {
        var i :| 0 <= i < |init| && init[i].user == user;
        assert ballots[i].user == user;
      }
    }
  }

  lemma VotersHas(ballots: seq<Ballot>, target: Target, value: int, user: nat)
    requires value != 0
    ensures user in Voters(ballots, target, value) <==> LastSent(ballots, user, target) == value
  {
    NeverVoted(ballots, user, target);
  }

  lemma LastSentStep(ballots: seq<Ballot>, b: Ballot, user: nat, target: Target)
    ensures LastSent(ballots + [b], user, target) ==
            if b.user == user && b.target == target && -1 <= b.value <= 1 then b.value
            else LastSent(ballots, user, target)
  {
    assert (ballots + [b])[..|ballots|] == ballots;
  }

  /** After one more ballot of the user, or one that does not count. */
  lemma VotersAfter(ballots: seq<Ballot>, b: Ballot, target: Target, value: int, user: nat)
    requires value != 0
    ensures user in Voters(ballots + [b], target, value) <==>
            if user == b.user && b.target == target && -1 <= b.value <= 1 then b.value == value
            else user in Voters(ballots, target, value)
  {
    LastSentStep(ballots, b, user, target);
    VotersHas(ballots, target, value, user);
    VotersHas(ballots + [b], target, value, user);
  }

  lemma VotersStep(ballots: seq<Ballot>, b: Ballot, target: Target, value: int)
    requires value != 0
    ensures var before, after := Voters(ballots, target, value), Voters(ballots + [b], target, value);
      var counts := b.target == target && -1 <= b.value <= 1;
      |after| == |before| - Is(counts && LastSent(ballots, b.user, target) == value) + Is(counts && b.value == value)
  {
    var before, after := Voters(ballots, target, value), Voters(ballots + [b], target, value);
    forall u: nat
      ensures u != b.user ==> (u in after <==> u in before)
    {
      VotersAfter(ballots, b, target, value, u);
    }
    VotersAfter(ballots, b, target, value, b.user);
    VotersHas(ballots, target, value, b.user);
    assert after - {b.user} == before - {b.user};
    WithAndWithout(before, b.user);
    WithAndWithout(after, b.user);
  }

  lemma WithAndWithout(s: set<nat>, x: nat)
    ensures |s| == |s - {x}| + Is(x in s)
  {
    if x in s {
      assert s == (s - {x}) + {x};
    } else {
      assert s == s - {x};
    }
  }

  /** The records of a target and a value are as many as the users whose last vote that is. */
  lemma {:induction false} LiveIsVoters(start: Board, ballots: seq<Ballot>, target: Target, value: int)
    requires Fresh(start) && (value == 1 || value == -1)
    ensures Live(BoardAfter(start, ballots).votes, target, value) == |Voters(ballots, target, value)|
  {
    if ballots == [] {
      assert Voters(ballots, target, value) == {};
    } else {
      var init, b := ballots[..|ballots| - 1], ballots[|ballots| - 1];
      assert ballots == init + [b];
      LiveIsVoters(start, init, target, value);
      RecordIsLastSent(start, init, b.user, b.target);
      VotersStep(init, b, target, value);
      var votes := BoardAfter(start, init).votes;
      if Valid(b) && b.target == target {
        LiveAfterRecording(votes, b, value);
      } else if Valid(b) {
        LiveOfOtherTarget(votes, b, target, value);
      }
    }
  }

  /** What the cached counters hold, in every sequential run, from the ballots alone: the users whose last vote is up or
      down, plus one upvote and two downvotes for every downvote ever left, plus one downvote for every upvote ever
      left. */
  lemma {:induction false} CountersLaw(start: Board, ballots: seq<Ballot>, target: Target)
    requires Fresh(start) && target in start.counters
    ensures var end := BoardAfter(start, ballots);
      var n, p := Departures(ballots, target, -1), Departures(ballots, target, 1);
      && end.counters.Keys == start.counters.Keys
      && end.counters[target].upvotes == |Voters(ballots, target, 1)| + n
      && end.counters[target].downvotes == |Voters(ballots, target, -1)| + 2 * n + p
  {
    if ballots == [] {
      assert Voters(ballots, target, 1) == {} && Voters(ballots, target, -1) == {};
    } else {
      var init, b := ballots[..|ballots| - 1], ballots[|ballots| - 1];
      assert ballots == init + [b];
      CountersLaw(start, init, target);
      RecordIsLastSent(start, init, b.user, b.target);
      VotersStep(init, b, target, 1);
      VotersStep(init, b, target, -1);
    }
  }

  /** So the counters never fall below the votes in force, and equal them if and only if no vote on the target was ever
      changed or taken back. */
  lemma CountersMatchIff(start: Board, ballots: seq<Ballot>, target: Target)
    requires Fresh(start) && target in start.counters
    ensures var end := BoardAfter(start, ballots);
      var up, down := |Voters(ballots, target, 1)|, |Voters(ballots, target, -1)|;
      && target in end.counters
      && up <= end.counters[target].upvotes && down <= end.counters[target].downvotes
      && (end.counters[target] == Counters(up, down) <==>
            Departures(ballots, target, 1) == 0 && Departures(ballots, target, -1) == 0)
  {
    CountersLaw(start, ballots, target);
  }

  /** One user votes up and takes the vote back: no record is left, but a downvote is counted. */
  lemma TakingBackAnUpvoteLeavesADownvote(user: nat, target: Target)
    ensures var start := Board([], map[target := Counters(0, 0)]);
      var end := BoardAfter(start, [Ballot(user, target, 1), Ballot(user, target, 0)]);
      end.votes == [] && target in end.counters && end.counters[target] == Counters(0, 1)
  {
    var start := Board([], map[target := Counters(0, 0)]);
    var ballots := [Ballot(user, target, 1), Ballot(user, target, 0)];
    assert ballots[..1] == [Ballot(user, target, 1)] && ballots[..1][..0] == [];
    assert BoardAfter(start, []) == start;
    assert BoardAfter(start, ballots[..1]) == Board([Vote(user, target, 1)], map[target := Counters(1, 0)]);
  }

  /** The collection votes, and the counters of all threads and comments. */
  class Discussion {
    var votes: seq<Vote>
    var counters: map<Target, Counters>

    ghost function Snapshot(): Board
      reads this
    {
      Board(votes, counters)
    }

    constructor (targets: set<Target>)
      ensures Fresh(Snapshot()) && counters.Keys == targets
    {
      votes, counters := [], map t | t in targets :: Counters(0, 0);
    }

    method FindVote(user: nat, target: Target) returns (i: nat)
      ensures i == Find(votes, user, target)
    {
      i := Search((v: Vote) => v.user == user && v.target == target, votes);
    }

    /** The record of the vote is inserted, updated or deleted; the result is the value it held before. */
    method RecordVote(b: Ballot) returns (oldVoteValue: int)
      modifies this`votes
      ensures votes == Recorded(old(votes), b)
      ensures oldVoteValue == OldValue(old(votes), b)
    {
      var i := FindVote(b.user, b.target);
      oldVoteValue := if i < |votes| then votes[i].value else 0;
      if b.value == 0 {
        if i < |votes| {
          votes := votes[..i] + votes[i + 1..];
        }
      } else {
        if i < |votes| {
          votes := votes[..i] + [votes[i].(value := b.value)] + votes[i + 1..];
        } else {
          votes := votes + [Vote(b.user, b.target, b.value)];
        }
      }
    }

    /** The increments of both counters; those of a target that does not exist stay unwritten. */
    method UpdateCounters(target: Target, oldVoteValue: int, value: int)
      modifies this`counters
      ensures target in old(counters) ==>
        counters == old(counters)[target := Incremented(old(counters)[target], oldVoteValue, value)]
      ensures target !in old(counters) ==> counters == old(counters)
    {
      var voteChange := value - oldVoteValue;
      var upvotes, downvotes := 0, 0;
      if voteChange > 0 {
        upvotes := voteChange;
        if oldVoteValue < 0 {
          downvotes := -oldVoteValue;
        }
      } else if voteChange < 0 {
        downvotes := -voteChange;
        if oldVoteValue > 0 {
          upvotes := -oldVoteValue;
        }
      }
      if target in counters {
        var c := counters[target];
        counters := counters[target := Counters(c.upvotes + upvotes, c.downvotes + downvotes)];
      }
    }

    /** VoteHandler. A value other than -1, 0 and 1 is rejected. */
    method CastVote(b: Ballot) returns (accepted: bool)
      modifies this
      ensures accepted <==> -1 <= b.value <= 1
      ensures Snapshot() == Cast(old(Snapshot()), b)
    {
      if b.value != -1 && b.value != 0 && b.value != 1 {
        return false;
      }
      var oldVoteValue := RecordVote(b);
      UpdateCounters(b.target, oldVoteValue, b.value);
      return true;
    }
  }
}
