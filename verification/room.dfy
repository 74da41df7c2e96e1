/** The host's phase controller and the player actions, as a room object whose
    methods update its documents in place. Every method is one atomic step and
    is proved to have exactly the effect of the matching event of module Game. */
module Rooms {
  import opened Scoring
  import opened Game

  /** Loop of startQuestion and goNextIfAllReady: readyNext := false for
      every player, collected before the batch is committed. */
  method ClearReadiness(ps: seq<Player>) returns (cleared: seq<Player>)
    ensures cleared == ClearReady(ps)
    ensures |cleared| == |ps| && forall i :: 0 <= i < |ps| ==> !cleared[i].readyNext && cleared[i].id == ps[i].id
  {
    cleared := [];
    var i := 0;
    while i < |ps|
      invariant 0 <= i <= |ps|
      invariant cleared == ClearReady(ps[..i])
    {
      cleared := cleared + [ps[i].(readyNext := false)];
      i := i + 1;
    }
    assert ps[..i] == ps;
  }

  /** `players.length > 0 && players.every(p => p.readyNext === true)`. */
  method EveryoneReady(ps: seq<Player>) returns (ready: bool)
    ensures ready <==> |ps| > 0 && forall i :: 0 <= i < |ps| ==> ps[i].readyNext
  {
    ready := |ps| > 0;
    var i := 0;
    while i < |ps| && ready
      invariant 0 <= i <= |ps|
      invariant ready <==> |ps| > 0 && forall j :: 0 <= j < i ==> ps[j].readyNext
    {
      ready := ps[i].readyNext;
      i := i + 1;
    }
  }

  /** The scoring loop of goToFeedbackIfReady: each player is scored with
      their answer to question q (None without a submission) and credited;
      ok is false as soon as a scoring call throws, and then nothing is to be
      committed. */
  method CreditAll(ps: seq<Player>, subs: map<(int, string), Answer>, q: int)
    returns (ok: bool, credited: seq<Player>)
    ensures ok <==> forall i :: 0 <= i < |ps| ==> ScoreAt(q, AnswerFor(subs, q, ps[i].id)).Ok?
    ensures ok ==> |credited| == |ps|
    ensures ok ==> forall i :: 0 <= i < |ps| ==>
                     credited[i] == Credit(ps[i], ScoreAt(q, AnswerFor(subs, q, ps[i].id)).value)
  {
    credited := [];
    var i := 0;
    while i < |ps|
      invariant 0 <= i <= |ps| && |credited| == i
      invariant forall j :: 0 <= j < i ==> ScoreAt(q, AnswerFor(subs, q, ps[j].id)).Ok?
      invariant forall j :: 0 <= j < i ==>
        credited[j] == Credit(ps[j], ScoreAt(q, AnswerFor(subs, q, ps[j].id)).value)
    {
      var sub := if (q, ps[i].id) in subs then Some(subs[(q, ps[i].id)]) else None;
      var scored := ScoreQuestion(q, sub);
      if scored.Throws? {
        return false, credited;
      }
      credited := credited + [Credit(ps[i], scored.value)];
      i := i + 1;
    }
    ok := true;
  }

  class Room {
    const hostId: string
    var phase: Phase
    var qIndex: int
    var scoredUpTo: int
    var players: seq<Player>
    var submissions: map<(int, string), Answer>

    /** The documents of the room as one value. */
    function State(): RoomState
      reads this
    {
      RoomState(hostId, phase, qIndex, scoredUpTo, players, submissions)
    }

    /** Room creation: the room document in the lobby with qIndex = scoredUpTo
        = -1, and the creator's player document. */
    constructor (hostId: string, name: string)
      ensures State() == Create(hostId, name)
      ensures Inv(State())
    {
      this.hostId := hostId;
      phase, qIndex, scoredUpTo := Lobby, -1, -1;
      players := [NewPlayer(hostId, name)];
      submissions := map[];
    }

    /** startQuestion(i): clears every readyNext and opens question i, in one batch. */
    method StartQuestion(i: int)
      modifies this
      ensures State() == Game.StartQuestion(old(State()), i)
    {
      var cleared := ClearReadiness(players);
      players, phase, qIndex := cleared, Question, i;
    }

    /** The host's "start game" button. */
    method StartGame(caller: string)
      modifies this
      ensures State() == Game.StartGame(old(State()), caller)
      ensures Inv(old(State())) ==> Inv(State())
    {
      ghost var before := State();
      if Inv(before) { EventKeepsInv(before, StartClicked(caller)); }
      if caller != hostId || phase != Lobby {
        return;
      }
      StartQuestion(0);
    }

    /** goToFeedbackIfReady, with the submissions listener and the re-read of
        the room collapsed into one atomic step. */
    method GoToFeedbackIfReady(caller: string)
      modifies this
      ensures State() == GoToFeedback(old(State()), caller)
      ensures old(scoredUpTo) >= old(qIndex) ==> State() == old(State())
      ensures Inv(old(State())) ==> Inv(State())
    {
      ghost var before := State();
      if Inv(before) { EventKeepsInv(before, FeedbackCheck(caller)); }
      if caller != hostId {
        return;
      }
      if phase != Question {
        return;
      }
      var q := qIndex;
      if scoredUpTo >= q {
        return;
      }
      var submitted := set k | k in submissions && k.0 == q :: k.1;
      if |submitted| < |players| {
        return;
      }
      if scoredUpTo >= q {  // the fresh read of the room just before the batch
        return;
      }
      var ok, credited := CreditAll(players, submissions, q);
      if !ok {
        return;
      }
      players, phase, scoredUpTo := credited, Feedback, q;
    }

    /** goNextIfAllReady. */
    method GoNextIfAllReady(caller: string)
      modifies this
      ensures State() == GoNext(old(State()), caller)
      ensures Inv(old(State())) ==> Inv(State())
    {
      ghost var before := State();
      if Inv(before) { EventKeepsInv(before, NextCheck(caller)); }
      if caller != hostId {
        return;
      }
      if phase != Feedback {
        return;
      }
      var allReady := EveryoneReady(players);
      if !allReady {
        return;
      }
      var next := qIndex + 1;
      if next >= |QUESTIONS| {
        var cleared := ClearReadiness(players);
        players, phase := cleared, Results;
        return;
      }
      StartQuestion(next);
    }

    /** The submit button: the answer is written under "{qIndex}_{uid}" while
        a question is open. */
    method Submit(uid: string, answer: Answer)
      modifies this
      ensures State() == Game.Submit(old(State()), uid, answer)
      ensures Inv(old(State())) ==> Inv(State())
    {
      ghost var before := State();
      if Inv(before) { EventKeepsInv(before, Submitted(uid, answer)); }
      if phase != Question {
        return;
      }
      submissions := submissions[(qIndex, uid) := answer];
    }

    /** The "Weiter" button: the player's own readyNext := true. */
    method SetReady(uid: string)
      modifies this
      ensures State() == Game.SetReady(old(State()), uid)
      ensures Inv(old(State())) ==> Inv(State())
    {
      ghost var before := State();
      if Inv(before) { EventKeepsInv(before, NextClicked(uid)); }
      var ps := players;
      players := seq(|ps|, i requires 0 <= i < |ps| =>
                       if ps[i].id == uid then ps[i].(readyNext := true) else ps[i]);
    }

    /** Joining: a merge write of a fresh player document. */
    method Join(uid: string, name: string)
      modifies this
      ensures State() == Game.Join(old(State()), uid, name)
      ensures Inv(old(State())) ==> Inv(State())
    {
      ghost var before := State();
      if Inv(before) { EventKeepsInv(before, Joined(uid, name)); }
      var ps := players;
      if exists j :: 0 <= j < |ps| && ps[j].id == uid {
        players := seq(|ps|, i requires 0 <= i < |ps| =>
                         if ps[i].id == uid then NewPlayer(uid, name) else ps[i]);
      } else {
        players := players + [NewPlayer(uid, name)];
      }
    }
  }

  /** The controller may be run any number of times for the same snapshot (on
      every change and every 800 ms): a second scoring pass changes nothing. */
  method ScoreTwice(room: Room, caller: string)
    modifies room
    ensures room.State() == GoToFeedback(old(room.State()), caller)
  {
    room.GoToFeedbackIfReady(caller);
    room.GoToFeedbackIfReady(caller);
    FeedbackIdempotent(old(room.State()), caller);
  }
}
