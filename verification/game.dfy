/** The room protocol as values: the room document, the player documents and
    the submissions, and one function per event that the host's controller or
    a player's client reacts to. Each event is one atomic step (a batched
    write is all-or-nothing). */
module Game {
  import opened Scoring

  datatype Phase = Lobby | Question | Feedback | Results

  datatype Player = Player(id: string, name: string, totalScore: int, lastDelta: int, lastMsg: string, readyNext: bool)

  /** The room, its players (in snapshot order) and its submissions, keyed by
      (question index, submitter uid) as the document id "{qIndex}_{uid}" is. */
  datatype RoomState = RoomState(
    hostId: string,
    phase: Phase,
    qIndex: int,
    scoredUpTo: int,
    players: seq<Player>,
    submissions: map<(int, string), Answer>)

  function NewPlayer(id: string, name: string): Player
  {
    Player(id, name, 0, 0, "", false)
  }

  // ---------------------------------------------------------------- invariant

  predicate UniqueIds(ps: seq<Player>)
  {
    forall i, j :: 0 <= i < j < |ps| ==> ps[i].id != ps[j].id
  }

  /** What every reachable room satisfies: scoredUpTo never passes qIndex, and
      each phase fixes how the two relate. */
  predicate Inv(s: RoomState)
  {
    && UniqueIds(s.players)
    && -1 <= s.scoredUpTo <= s.qIndex < |QUESTIONS|
    && match s.phase
       case Lobby => s.qIndex == -1
       case Question => 0 <= s.qIndex && s.scoredUpTo == s.qIndex - 1
       case Feedback => 0 <= s.qIndex && s.scoredUpTo == s.qIndex
       case Results => s.qIndex == |QUESTIONS| - 1 && s.scoredUpTo == s.qIndex
  }

  // ---------------------------------------------------------------- creation and joining

  /** The room as its creator writes it: lobby, no question yet, nothing scored,
      and the creator as the only player. */
  function Create(hostId: string, name: string): (s: RoomState)
    ensures Inv(s)
    ensures s.phase == Lobby && s.qIndex == -1 && s.scoredUpTo == -1
    ensures s.players == [NewPlayer(hostId, name)] && s.submissions == map[]
  {
    RoomState(hostId, Lobby, -1, -1, [NewPlayer(hostId, name)], map[])
  }

  predicate HasPlayer(ps: seq<Player>, uid: string)
  {
    exists i :: 0 <= i < |ps| && ps[i].id == uid
  }

  /** Joining writes a fresh player document with merge: a new uid is added, an
      existing one has its score and readiness reset. */
  function Join(s: RoomState, uid: string, name: string): RoomState
  {
    if HasPlayer(s.players, uid) then
      s.(players := seq(|s.players|, i requires 0 <= i < |s.players| =>
                          if s.players[i].id == uid then NewPlayer(uid, name) else s.players[i]))
    else
      s.(players := s.players + [NewPlayer(uid, name)])
  }

  // ---------------------------------------------------------------- player actions

  /** A player's answer to the current question; only accepted while a question is open. */
  function Submit(s: RoomState, uid: string, a: Answer): RoomState
  {
    if s.phase != Question then s else s.(submissions := s.submissions[(s.qIndex, uid) := a])
  }

  /** A player presses "Weiter": an update of their own document, which fails
      (changing nothing) when they have none. */
  function SetReady(s: RoomState, uid: string): RoomState
  {
    s.(players := seq(|s.players|, i requires 0 <= i < |s.players| =>
                        if s.players[i].id == uid then s.players[i].(readyNext := true) else s.players[i]))
  }

  // ---------------------------------------------------------------- host controller

  function ClearReady(ps: seq<Player>): seq<Player>
  {
    seq(|ps|, i requires 0 <= i < |ps| => ps[i].(readyNext := false))
  }

  /** startQuestion: every readyNext cleared, the room moved to question i. */
  function StartQuestion(s: RoomState, i: int): RoomState
  {
    s.(players := ClearReady(s.players), phase := Question, qIndex := i)
  }

  /** The host's "start game" button, which is shown only in the lobby. */
  function StartGame(s: RoomState, caller: string): RoomState
  {
    if caller == s.hostId && s.phase == Lobby then StartQuestion(s, 0) else s
  }

  /** The distinct uids that submitted an answer to question q. */
  function Submitters(subs: map<(int, string), Answer>, q: int): set<string>
  {
    set k | k in subs && k.0 == q :: k.1
  }

  /** The answer a player gave to question q, or None without a submission. */
  function AnswerFor(subs: map<(int, string), Answer>, q: int, uid: string): Option<Answer>
  {
    if (q, uid) in subs then Some(subs[(q, uid)]) else None
  }

  /** Every player's answer to the current question can be scored without throwing. */
  predicate AllScorable(s: RoomState)
  {
    forall i :: 0 <= i < |s.players| ==> ScoreAt(s.qIndex, AnswerFor(s.submissions, s.qIndex, s.players[i].id)).Ok?
  }

  function Credit(p: Player, r: Scored): Player
  {
    p.(totalScore := p.totalScore + r.points, lastDelta := r.points, lastMsg := r.msg)
  }

  function Credited(s: RoomState): seq<Player>
    requires AllScorable(s)
  {
    seq(|s.players|, i requires 0 <= i < |s.players| =>
          Credit(s.players[i], ScoreAt(s.qIndex, AnswerFor(s.submissions, s.qIndex, s.players[i].id)).value))
  }

  /** The guards of goToFeedbackIfReady, the re-read of scoredUpTo included:
      host, an open question not yet scored, and at least as many distinct
      submitters as players. */
  predicate FeedbackDue(s: RoomState, caller: string)
  {
    && caller == s.hostId
    && s.phase == Question
    && s.scoredUpTo < s.qIndex
    && |Submitters(s.submissions, s.qIndex)| >= |s.players|
  }

  /** goToFeedbackIfReady: when due, one batch credits every player with the
      score of their answer and moves the room to feedback with scoredUpTo =
      qIndex. A scoring call that throws aborts the batch. */
  function GoToFeedback(s: RoomState, caller: string): RoomState
  {
    if FeedbackDue(s, caller) && AllScorable(s) then
      s.(players := Credited(s), phase := Feedback, scoredUpTo := s.qIndex)
    else
      s
  }

  predicate AllReady(ps: seq<Player>)
  {
    |ps| > 0 && forall i :: 0 <= i < |ps| ==> ps[i].readyNext
  }

  /** goNextIfAllReady: once every player is ready in feedback, the next
      question starts, or after the last one the results are shown. */
  function GoNext(s: RoomState, caller: string): RoomState
  {
    if caller != s.hostId || s.phase != Feedback || !AllReady(s.players) then s
    else if s.qIndex + 1 >= |QUESTIONS| then s.(players := ClearReady(s.players), phase := Results)
    else StartQuestion(s, s.qIndex + 1)
  }

  // ---------------------------------------------------------------- runs

  /** The events a room reacts to. */
  datatype Event =
    | StartClicked(caller: string)
    | FeedbackCheck(caller: string)
    | NextCheck(caller: string)
    | Submitted(uid: string, answer: Answer)
    | NextClicked(uid: string)
    | Joined(uid: string, name: string)

  function Apply(s: RoomState, e: Event): RoomState
  {
    match e
    case StartClicked(c) => StartGame(s, c)
    case FeedbackCheck(c) => GoToFeedback(s, c)
    case NextCheck(c) => GoNext(s, c)
    case Submitted(u, a) => Submit(s, u, a)
    case NextClicked(u) => SetReady(s, u)
    case Joined(u, n) => Join(s, u, n)
  }

  function Run(s: RoomState, es: seq<Event>): RoomState
    decreases |es|
  {
    if es == [] then s else Run(Apply(s, es[0]), es[1..])
  }

  /** The question indexes a run scores, in order. */
  function Scorings(s: RoomState, es: seq<Event>): seq<int>
    decreases |es|
  {
    if es == [] then []
    else
      var t := Apply(s, es[0]);
      (if t.scoredUpTo != s.scoredUpTo then [t.scoredUpTo] else []) + Scorings(t, es[1..])
  }

  // ---------------------------------------------------------------- properties

  lemma JoinKeepsIdsUnique(s: RoomState, uid: string, name: string)
    requires UniqueIds(s.players)
    ensures UniqueIds(Join(s, uid, name).players)
  {
    var ps := Join(s, uid, name).players;
    if !HasPlayer(s.players, uid) {
      forall i, j | 0 <= i < j < |ps| ensures ps[i].id != ps[j].id {
        if j == |s.players| {
          assert ps[i] == s.players[i];
        }
      }
    }
  }

  /** Every event keeps the invariant. */
  lemma EventKeepsInv(s: RoomState, e: Event)
    requires Inv(s)
    ensures Inv(Apply(s, e))
  {
    match e
    case Joined(u, n) => JoinKeepsIdsUnique(s, u, n);
    case _ =>
  }

  /** Every room reached from creation by any events satisfies the invariant,
      in particular scoredUpTo <= qIndex. */
  lemma {:induction false} RunKeepsInv(s: RoomState, es: seq<Event>)
    requires Inv(s)
    ensures Inv(Run(s, es))
    decreases |es|
  {
    if es != [] {
      EventKeepsInv(s, es[0]);
      RunKeepsInv(Apply(s, es[0]), es[1..]);
    }
  }

  lemma ReachableRoomsAreValid(hostId: string, name: string, es: seq<Event>)
    ensures Inv(Run(Create(hostId, name), es))
    ensures Run(Create(hostId, name), es).scoredUpTo <= Run(Create(hostId, name), es).qIndex
  {
    RunKeepsInv(Create(hostId, name), es);
  }

  /** No event lowers scoredUpTo, and the only event that raises it is a scoring
      commit, which raises it to the current question. */
  lemma EventScoredUpToMonotone(s: RoomState, e: Event)
    ensures Apply(s, e).scoredUpTo >= s.scoredUpTo
    ensures Apply(s, e).scoredUpTo != s.scoredUpTo ==>
              e.FeedbackCheck? && s.phase == Question && Apply(s, e).scoredUpTo == s.qIndex > s.scoredUpTo
  {
  }

  /** No double scoring: along any run, every scoring commit is for a question
      strictly later than the one before it, so no question is scored twice. */
  lemma {:induction false} ScoringsStrictlyIncrease(s: RoomState, es: seq<Event>)
    ensures forall i :: 0 <= i < |Scorings(s, es)| ==> Scorings(s, es)[i] > s.scoredUpTo
    ensures forall i, j :: 0 <= i < j < |Scorings(s, es)| ==> Scorings(s, es)[i] < Scorings(s, es)[j]
    ensures Run(s, es).scoredUpTo >= s.scoredUpTo
    decreases |es|
  {
    if es != [] {
      var t := Apply(s, es[0]);
      EventScoredUpToMonotone(s, es[0]);
      ScoringsStrictlyIncrease(t, es[1..]);
      var head: seq<int> := if t.scoredUpTo != s.scoredUpTo then [t.scoredUpTo] else [];
      var tail := Scorings(t, es[1..]);
      assert Scorings(s, es) == head + tail;
      assert forall i :: 0 <= i < |tail| ==> tail[i] > t.scoredUpTo >= s.scoredUpTo;
    }
  }

  /** goToFeedbackIfReady commits nothing unless the caller is host, a question
      is open and unscored, and the distinct submitters are at least as many as
      the players; when all that holds and every answer can be scored, it commits. */
  lemma FeedbackGuards(s: RoomState, caller: string)
    ensures GoToFeedback(s, caller) != s ==> FeedbackDue(s, caller)
    ensures FeedbackDue(s, caller) && AllScorable(s) ==> GoToFeedback(s, caller).phase == Feedback
    ensures !FeedbackDue(s, caller) ==> GoToFeedback(s, caller) == s
  {
  }

  /** Calling goToFeedbackIfReady again after it has committed changes nothing. */
  lemma FeedbackIdempotent(s: RoomState, caller: string)
    ensures GoToFeedback(GoToFeedback(s, caller), caller) == GoToFeedback(s, caller)
  {
  }

  /** The effect of the scoring commit: every player's total grows by exactly
      the points of their answer (an absent answer when they submitted nothing),
      lastDelta and lastMsg hold that score, readiness, ids and names stay; the
      room moves to feedback with scoredUpTo = qIndex and keeps its qIndex. */
  lemma FeedbackCredits(s: RoomState, caller: string)
    requires GoToFeedback(s, caller) != s
    ensures var t := GoToFeedback(s, caller);
      && t.phase == Feedback && t.scoredUpTo == s.qIndex && t.qIndex == s.qIndex
      && t.submissions == s.submissions && t.hostId == s.hostId
      && |t.players| == |s.players|
      && forall i :: 0 <= i < |s.players| ==>
           var r := ScoreAt(s.qIndex, AnswerFor(s.submissions, s.qIndex, s.players[i].id));
           && r.Ok?
           && t.players[i].totalScore == s.players[i].totalScore + r.value.points
           && t.players[i].lastDelta == r.value.points
           && t.players[i].lastMsg == r.value.msg
           && t.players[i].readyNext == s.players[i].readyNext
           && t.players[i].id == s.players[i].id
           && t.players[i].name == s.players[i].name
  {
  }

  /** goNextIfAllReady fires exactly for the host, in feedback, with a
      non-empty player list that is all ready. After the last question it shows the
      results; otherwise it opens the next question. Either way every readyNext
      is cleared and scores and scoredUpTo are untouched. */
  lemma NextEffects(s: RoomState, caller: string)
    ensures GoNext(s, caller) != s <==> caller == s.hostId && s.phase == Feedback && AllReady(s.players)
    ensures var t := GoNext(s, caller);
      caller == s.hostId && s.phase == Feedback && AllReady(s.players) ==>
        && t.phase == (if s.qIndex + 1 >= |QUESTIONS| then Results else Question)
        && t.qIndex == (if s.qIndex + 1 >= |QUESTIONS| then s.qIndex else s.qIndex + 1)
        && t.scoredUpTo == s.scoredUpTo
        && t.submissions == s.submissions
        && |t.players| == |s.players|
        && forall i :: 0 <= i < |s.players| ==>
             t.players[i] == s.players[i].(readyNext := false)
  {
    if caller == s.hostId && s.phase == Feedback && AllReady(s.players) {
      // the first player was ready and no longer is
      assert GoNext(s, caller).players[0].readyNext != s.players[0].readyNext;
    }
  }

  /** The host's controller never takes points away: apart from a re-join, no
      event lowers a player's total or removes a player. */
  lemma TotalsNeverDecrease(s: RoomState, e: Event)
    requires !e.Joined?
    ensures |Apply(s, e).players| == |s.players|
    ensures forall i :: 0 <= i < |s.players| ==>
              Apply(s, e).players[i].id == s.players[i].id &&
              Apply(s, e).players[i].totalScore >= s.players[i].totalScore
  {
    if e.FeedbackCheck? && GoToFeedback(s, e.caller) != s {
      forall i | 0 <= i < |s.players|
        ensures Apply(s, e).players[i].totalScore >= s.players[i].totalScore
      {
        TableScoresNonNegative(s.qIndex, AnswerFor(s.submissions, s.qIndex, s.players[i].id));
      }
    }
  }

  function PlayerIds(ps: seq<Player>): set<string>
  {
    set i | 0 <= i < |ps| :: ps[i].id
  }

  lemma {:induction false} PlayerIdsSize(ps: seq<Player>)
    requires UniqueIds(ps)
    ensures |PlayerIds(ps)| == |ps|
  {
    if ps != [] {
      var rest := ps[1..];
      PlayerIdsSize(rest);
      assert PlayerIds(ps) == PlayerIds(rest) + {ps[0].id} by {
        forall x | x in PlayerIds(ps) ensures x in PlayerIds(rest) + {ps[0].id} {
          var i :| 0 <= i < |ps| && ps[i].id == x;
          if i > 0 { assert rest[i - 1].id == x; }
        }
        forall x | x in PlayerIds(rest) ensures x in PlayerIds(ps) {
          var i :| 0 <= i < |rest| && rest[i].id == x;
          assert ps[i + 1].id == x;
        }
      }
      assert ps[0].id !in PlayerIds(rest);
    }
  }

  /** The readiness test counts distinct submitters rather than comparing sets.
      When only players submit (as clients do), it means exactly that every
      player has submitted. */
  lemma ReadinessMeansEveryoneSubmitted(s: RoomState)
    requires UniqueIds(s.players)
    requires Submitters(s.submissions, s.qIndex) <= PlayerIds(s.players)
    ensures |Submitters(s.submissions, s.qIndex)| >= |s.players| <==>
              forall i :: 0 <= i < |s.players| ==> (s.qIndex, s.players[i].id) in s.submissions
  {
    var subs, ids := Submitters(s.submissions, s.qIndex), PlayerIds(s.players);
    PlayerIdsSize(s.players);
    SubsetSize(subs, ids);
    if |subs| >= |s.players| {
      SubsetOfSameSize(subs, ids);
      forall i | 0 <= i < |s.players| ensures (s.qIndex, s.players[i].id) in s.submissions {
        assert s.players[i].id in ids;
        var k :| k in s.submissions && k.0 == s.qIndex && k.1 == s.players[i].id;
      }
    }
    if forall i :: 0 <= i < |s.players| ==> (s.qIndex, s.players[i].id) in s.submissions {
      forall x | x in ids ensures x in subs {
        var i :| 0 <= i < |s.players| && s.players[i].id == x;
        assert (s.qIndex, x) in s.submissions;
      }
      SubsetSize(ids, subs);
    }
  }

  /** A worked round: two players on the first single-choice question, one
      answering "18. Jahrhundert" (correct, 10 points) and one "15. Jahrhundert"
      (wrong, 1 point); the host's check scores both and opens the feedback. */
  lemma SingleChoiceRound()
    ensures var s := RoomState("A", Question, 1, 0,
                               [NewPlayer("A", "Anna"), NewPlayer("B", "Ben")],
                               map[(1, "A") := Choice("18. Jahrhundert"), (1, "B") := Choice("15. Jahrhundert")]);
            var t := GoToFeedback(s, "A");
            && t.phase == Feedback && t.scoredUpTo == 1
            && t.players[0].totalScore == 10 && t.players[0].lastMsg == "Richtig!"
            && t.players[1].totalScore == 1 && t.players[1].lastMsg == "Trostpreis."
  {
    var subs := map[(1, "A") := Choice("18. Jahrhundert"), (1, "B") := Choice("15. Jahrhundert")];
    assert "A" in Submitters(subs, 1) && "B" in Submitters(subs, 1);
    assert |{"A", "B"}| == 2;
    SubsetSize({"A", "B"}, Submitters(subs, 1));
  }
}
