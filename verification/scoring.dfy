/** The scoring engine: the fixed question table and the rules that turn a
    question and a submitted answer into a point delta and a feedback message. */
module Scoring {

  datatype Option<+T> = None | Some(value: T)

  /** A pin dropped on the map: its coordinates and its great-circle distance
      in kilometres to the target (Berlin), as the haversine formula gives it. */
  datatype Pin = Pin(lat: real, lng: real, distKm: real)

  /** The answer field of a submission. A player without a submission is
      scored with None (the source passes `undefined`). */
  datatype Answer =
    | Choice(text: string)            // the chosen option of a single-choice question
    | Selection(picks: seq<string>)   // the ticked options of a multi-choice question
    | MapPick(pin: Pin)

  datatype Question =
    | MapQuestion(max: int)
    | Single(correct: string, pointsCorrect: int, pointsWrong: int, wrongMsg: string)
    | Multi(correctSet: set<string>, wrongPenaltyEach: int, pointsPerCorrect: int, max: int)
    | MultiFinal(correctSet: set<string>, max: int, penaltyPerMissing: int)

  datatype Scored = Scored(points: int, msg: string)

  /** What a call of the scoring function does: return a score, or throw. */
  datatype Outcome = Ok(value: Scored) | Throws

  /** The question list, shared by every client, in play order. */
  const QUESTIONS: seq<Question> := [
    MapQuestion(10),
    Single("18. Jahrhundert", 10, 1, "Trostpreis."),
    Single("König", 10, 3, "Trostpreis."),
    Multi({"Flöte spielen", "Krieg führen"}, 3, 10, 20),
    Single("Friedrich der Große", 10, 3, "Trostpreis."),
    MultiFinal({"Reformer", "Kartoffelliebhaber", "Militärstratege"}, 40, 13)
  ]

  /** The final question always expects this many correct picks, whatever its set holds. */
  const REQUIRED_HITS: int := 3

  function Max(a: int, b: int): int { if a >= b then a else b }
  function Min(a: int, b: int): int { if a <= b then a else b }

  // ---------------------------------------------------------------- map pick

  predicate InPrussiaBox(lat: real, lng: real)
  {
    50.8 <= lat <= 55.8 && 10.5 <= lng <= 22.8
  }

  /** JavaScript's Math.round: halves round towards positive infinity. */
  function Round(x: real): (r: int)
    ensures r as real <= x + 0.5 < r as real + 1.0
  {
    (x + 0.5).Floor
  }

  /** Tiered score of a map pick: 10 within 20 km, 9 within 100 km, 8 inside the
      Prussia box, otherwise a linear decay from 7 at 100 km to 0 at 2000 km. */
  function MapScore(p: Pin): (s: Scored)
    ensures 0 <= s.points <= 10
    ensures p.distKm <= 20.0 <==> s.points == 10
    ensures s.points == 9 <==> 20.0 < p.distKm <= 100.0
    ensures 100.0 < p.distKm ==> s.points <= 8
  {
    if p.distKm <= 20.0 then Scored(10, "Treffer! Fast genau Berlin.")
    else if p.distKm <= 100.0 then Scored(9, "Sehr nah dran.")
    else if InPrussiaBox(p.lat, p.lng) then Scored(8, "In Preußen — solide!")
    else
      var d := if p.distKm < 2000.0 then p.distKm else 2000.0;
      var points := Max(0, Round(7.0 * (1.0 - (d - 100.0) / 1900.0)));
      Scored(points, if points > 0 then "Außerhalb Preußens — je weiter, desto weniger." else "Zu weit weg 😅")
  }

  lemma FloorMonotone(x: real, y: real)
    requires x <= y
    ensures x.Floor <= y.Floor
  {
  }

  /** Outside the Prussia box and beyond 100 km, a farther pick never scores more. */
  lemma MapScoreMonotone(p: Pin, p': Pin)
    requires 100.0 < p.distKm <= p'.distKm
    requires !InPrussiaBox(p.lat, p.lng) && !InPrussiaBox(p'.lat, p'.lng)
    ensures MapScore(p').points <= MapScore(p).points
  {
    var d := if p.distKm < 2000.0 then p.distKm else 2000.0;
    var d' := if p'.distKm < 2000.0 then p'.distKm else 2000.0;
    assert d <= d';
    FloorMonotone(7.0 * (1.0 - (d' - 100.0) / 1900.0) + 0.5, 7.0 * (1.0 - (d - 100.0) / 1900.0) + 0.5);
  }

  // ---------------------------------------------------------------- single choice

  function SingleScore(q: Question, a: Option<Answer>): Scored
    requires q.Single?
  {
    if a == Some(Choice(q.correct)) then Scored(q.pointsCorrect, "Richtig!")
    else Scored(q.pointsWrong, if q.wrongMsg == "" then "Trostpreis." else q.wrongMsg)
  }

  // ---------------------------------------------------------------- multi choice

  /** The selection as a set, as `new Set(answer || [])` builds it: an absent
      answer is empty, a string contributes its characters, a pin cannot be
      iterated and makes the scoring throw. */
  function Selected(a: Option<Answer>): Option<set<string>>
  {
    match a
    case None => Some({})
    case Some(Choice(t)) => Some(set i | 0 <= i < |t| :: [t[i]])
    case Some(Selection(ps)) => Some(set p | p in ps)
    case Some(MapPick(_)) => None
  }

  /** Bonus per correct pick, penalty per wrong pick, clamped to [0, max]. */
  function MultiScore(q: Question, sel: set<string>): Scored
    requires q.Multi?
  {
    var raw := q.pointsPerCorrect * |sel * q.correctSet| - q.wrongPenaltyEach * |sel - q.correctSet|;
    var points := Max(0, Min(q.max, raw));
    Scored(points,
      if points == q.max then "Perfekt!"
      else if points > 0 then "Teilweise richtig."
      else "Leider nichts getroffen.")
  }

  /** Decimal rendering of an integer, as a template literal prints it. */
  function DigitString(n: nat): string
  {
    if n < 10 then ["0123456789"[n]] else DigitString(n / 10) + ["0123456789"[n % 10]]
  }

  function IntString(i: int): string
  {
    if i < 0 then "-" + DigitString(-i) else DigitString(i)
  }

  /** Final question: only the number of correct picks matters; each of the
      REQUIRED_HITS not picked costs penaltyPerMissing; no hit at all gives 0. */
  function FinalScore(q: Question, sel: set<string>): Scored
    requires q.MultiFinal?
  {
    var hit := |sel * q.correctSet|;
    if hit == 0 then Scored(0, "Nur falsch angekreuzt → 0%.")
    else
      var missing := REQUIRED_HITS - hit;
      var points := Max(0, q.max - missing * q.penaltyPerMissing);
      Scored(points,
        if points == q.max then "Du bist wirklich Friedrich."
        else "Fast! Dir fehlen " + IntString(missing) + " richtige Auswahl(en).")
  }

  // ---------------------------------------------------------------- dispatch

  /** Score of an answer to a question; None where the source throws (a map
      question without a pin, a selection question answered with a pin). */
  function Score(q: Question, a: Option<Answer>): Outcome
  {
    match q
    case MapQuestion(_) => if a.Some? && a.value.MapPick? then Ok(MapScore(a.value.pin)) else Throws
    case Single(_, _, _, _) => Ok(SingleScore(q, a))
    case Multi(_, _, _, _) =>
      (match Selected(a)
       case None => Throws
       case Some(sel) => Ok(MultiScore(q, sel)))
    case MultiFinal(_, _, _) =>
      (match Selected(a)
       case None => Throws
       case Some(sel) => Ok(FinalScore(q, sel)))
  }

  /** Score of an answer to the question at an index of the table; an index
      outside the table has no question, and the source throws. */
  function ScoreAt(qIndex: int, a: Option<Answer>): Outcome
  {
    if 0 <= qIndex < |QUESTIONS| then Score(QUESTIONS[qIndex], a) else Throws
  }

  lemma MulStep(k: int, n: int)
    ensures k * (n + 1) == k * n + k
  {
  }

  /** The multi-choice loop: adds the bonus for each correct pick and takes
      the penalty for each wrong one, one element of the set at a time. */
  method SumPicks(q: Question, selected: set<string>) returns (points: int)
    requires q.Multi?
    ensures points == q.pointsPerCorrect * |selected * q.correctSet| - q.wrongPenaltyEach * |selected - q.correctSet|
  {
    points := 0;
    var rest := selected;
    ghost var done: set<string> := {};
    ghost var hits, misses := 0, 0;
    while rest != {}
      invariant rest + done == selected && rest !! done
      invariant hits == |done * q.correctSet| && misses == |done - q.correctSet|
      invariant points == q.pointsPerCorrect * hits - q.wrongPenaltyEach * misses
      decreases rest
    {
      var opt :| opt in rest;
      if opt in q.correctSet {
        assert (done + {opt}) * q.correctSet == done * q.correctSet + {opt};
        assert (done + {opt}) - q.correctSet == done - q.correctSet;
        MulStep(q.pointsPerCorrect, hits);
        points := points + q.pointsPerCorrect;
        hits := hits + 1;
      } else {
        assert (done + {opt}) * q.correctSet == done * q.correctSet;
        assert (done + {opt}) - q.correctSet == (done - q.correctSet) + {opt};
        MulStep(q.wrongPenaltyEach, misses);
        points := points - q.wrongPenaltyEach;
        misses := misses + 1;
      }
      rest := rest - {opt};
      done := done + {opt};
    }
    assert done == selected;
  }

  /** The final-question loop: counts the picks that are in the correct set. */
  method CountHits(selected: set<string>, correct: set<string>) returns (hit: nat)
    ensures hit == |selected * correct|
  {
    hit := 0;
    var rest := selected;
    ghost var done: set<string> := {};
    while rest != {}
      invariant rest + done == selected && rest !! done
      invariant hit == |done * correct|
      decreases rest
    {
      var opt :| opt in rest;
      if opt in correct {
        assert (done + {opt}) * correct == done * correct + {opt};
        hit := hit + 1;
      } else {
        assert (done + {opt}) * correct == done * correct;
      }
      rest := rest - {opt};
      done := done + {opt};
    }
    assert done == selected;
  }

  method ScoreMulti(q: Question, sel: set<string>) returns (s: Scored)
    requires q.Multi?
    ensures s == MultiScore(q, sel)
  {
    var points := SumPicks(q, sel);
    points := Max(0, Min(q.max, points));
    s := Scored(points,
      if points == q.max then "Perfekt!"
      else if points > 0 then "Teilweise richtig."
      else "Leider nichts getroffen.");
  }

  method ScoreFinal(q: Question, sel: set<string>) returns (s: Scored)
    requires q.MultiFinal?
    ensures s == FinalScore(q, sel)
  {
    var hit := CountHits(sel, q.correctSet);
    if hit == 0 {
      return Scored(0, "Nur falsch angekreuzt → 0%.");
    }
    var missing := REQUIRED_HITS - hit;
    var points := Max(0, q.max - missing * q.penaltyPerMissing);
    s := Scored(points,
      if points == q.max then "Du bist wirklich Friedrich."
      else "Fast! Dir fehlen " + IntString(missing) + " richtige Auswahl(en).");
  }

  /** scoreQuestion: looks the question up and dispatches on its type. */
  method ScoreQuestion(qIndex: int, answer: Option<Answer>) returns (r: Outcome)
    ensures r == ScoreAt(qIndex, answer)
  {
    if !(0 <= qIndex < |QUESTIONS|) {
      return Throws;
    }
    var q := QUESTIONS[qIndex];
    if q.MapQuestion? {
      r := if answer.Some? && answer.value.MapPick? then Ok(MapScore(answer.value.pin)) else Throws;
    } else if q.Single? {
      var ok := answer == Some(Choice(q.correct));
      r := Ok(Scored(if ok then q.pointsCorrect else q.pointsWrong,
                       if ok then "Richtig!" else if q.wrongMsg == "" then "Trostpreis." else q.wrongMsg));
    } else {
      var sel := Selected(answer);
      if sel.None? {
        return Throws;
      }
      var s;
      if q.Multi? {
        s := ScoreMulti(q, sel.value);
      } else {
        s := ScoreFinal(q, sel.value);
      }
      r := Ok(s);
    }
  }

  // ---------------------------------------------------------------- properties

  /** Every question of the table has a non-negative maximum and non-negative
      point parameters. */
  predicate WellFormed(q: Question)
  {
    match q
    case MapQuestion(max) => max >= 0
    case Single(_, pc, pw, _) => pc >= 0 && pw >= 0
    case Multi(_, pen, ppc, max) => pen >= 0 && ppc >= 0 && max >= 0
    case MultiFinal(c, max, pen) => |c| == REQUIRED_HITS && max >= 0 && pen > 0
  }

  lemma TableWellFormed()
    ensures forall i :: 0 <= i < |QUESTIONS| ==> WellFormed(QUESTIONS[i])
  {
    var c := QUESTIONS[5].correctSet;
    assert c == {"Reformer"} + {"Kartoffelliebhaber"} + {"Militärstratege"};
  }

  /** Single choice: the correct option gives pointsCorrect and "Richtig!";
      anything else, an absent answer included, gives pointsWrong and the
      wrong-answer message. */
  lemma SingleExactMatch(q: Question, a: Option<Answer>)
    requires q.Single? && q.wrongMsg != "Richtig!"
    ensures Score(q, a).Ok?
    ensures a == Some(Choice(q.correct)) ==> Score(q, a).value == Scored(q.pointsCorrect, "Richtig!")
    ensures a != Some(Choice(q.correct)) ==> Score(q, a).value.points == q.pointsWrong && Score(q, a).value.msg != "Richtig!"
  {
  }

  /** Multi choice: the points always lie in [0, max], and the message is
      "Perfekt!" exactly when the maximum is reached. */
  lemma MultiBounded(q: Question, a: Option<Answer>)
    requires q.Multi? && q.max >= 0 && !(a.Some? && a.value.MapPick?)
    ensures Score(q, a).Ok?
    ensures 0 <= Score(q, a).value.points <= q.max
    ensures Score(q, a).value.msg == "Perfekt!" <==> Score(q, a).value.points == q.max
  {
  }

  /** Multi choice: the selection is a set, so duplicates and order of the
      picks do not matter, and an absent answer is an empty selection. */
  lemma MultiIgnoresOrderAndDuplicates(q: Question, ps: seq<string>, ps': seq<string>)
    requires q.Multi? || q.MultiFinal?
    requires forall x :: x in ps <==> x in ps'
    ensures Score(q, Some(Selection(ps))) == Score(q, Some(Selection(ps')))
    ensures Score(q, None) == Score(q, Some(Selection([])))
  {
    assert (set p | p in ps) == (set p | p in ps');
  }

  /** Multi choice: with no pick at all, nothing is scored. */
  lemma MultiAbsentScoresZero(q: Question)
    requires q.Multi? && q.max > 0
    ensures Score(q, None) == Ok(Scored(0, "Leider nichts getroffen."))
  {
  }

  /** Final question: zero hits force 0 points whatever the formula gives. */
  lemma FinalNoHitScoresZero(q: Question, sel: set<string>)
    requires q.MultiFinal? && sel * q.correctSet == {}
    ensures FinalScore(q, sel).points == 0
  {
  }

  /** Final question: wrong picks cost nothing; only the correct ones count. */
  lemma FinalIgnoresWrongPicks(q: Question, sel: set<string>)
    requires q.MultiFinal?
    ensures FinalScore(q, sel) == FinalScore(q, sel * q.correctSet)
  {
    assert sel * q.correctSet * q.correctSet == sel * q.correctSet;
  }

  /** A subset is no larger than its superset. */
  lemma {:induction false} SubsetSize<T>(a: set<T>, b: set<T>)
    requires a <= b
    ensures |a| <= |b|
    decreases b
  {
    if a != {} {
      var x :| x in a;
      SubsetSize(a - {x}, b - {x});
    }
  }

  /** A subset as large as its superset is the whole superset. */
  lemma {:induction false} SubsetOfSameSize<T>(a: set<T>, b: set<T>)
    requires a <= b && |a| == |b|
    ensures a == b
  {
    if a != b {
      var x :| x in b && x !in a;
      SubsetSize(a, b - {x});
    }
  }

  /** Final question: the points are never negative and reach the maximum
      exactly when every one of the three correct options is picked. */
  lemma FinalPerfectIffAllPicked(q: Question, sel: set<string>)
    requires WellFormed(q) && q.MultiFinal? && q.max > 0
    ensures 0 <= FinalScore(q, sel).points <= q.max
    ensures FinalScore(q, sel).points == q.max <==> q.correctSet <= sel
  {
    var hits := sel * q.correctSet;
    SubsetSize(hits, q.correctSet);
    if |hits| == REQUIRED_HITS {
      SubsetOfSameSize(hits, q.correctSet);
    }
    if q.correctSet <= sel {
      assert hits == q.correctSet;
    }
    if 0 < |hits| < REQUIRED_HITS {
      assert (REQUIRED_HITS - |hits|) * q.penaltyPerMissing > 0;
    }
  }

  /** No question of the table ever takes points away: every score it can
      produce is non-negative. */
  lemma TableScoresNonNegative(qIndex: int, a: Option<Answer>)
    requires ScoreAt(qIndex, a).Ok?
    ensures ScoreAt(qIndex, a).value.points >= 0
  {
  }
}
