# Sei wie Friedrich — room protocol and scoring in Dafny

A model of the quiz game in `app.js`. One client creates a room and becomes its
host. Other players join with a six-character room code. The host's client
drives the room through the phases lobby → question → feedback → … → results.
It scores every player once per question and opens the next question when
everyone has pressed "Weiter". The model covers four parts:

- **Scoring** (`scoring.dfy`, module `Scoring`). This is the question table and
  `scoreQuestion` with its four branches: map pick, single choice, multi
  choice and the final question. The loops of the two multi-choice branches
  are methods proved against the scoring functions.
- **Room protocol** (`game.dfy`, module `Game`). The room document, player
  documents and submissions form one value, `RoomState`. Every event the room
  reacts to is a function on that value: creation, join, submit, "Weiter",
  start game, `goToFeedbackIfReady` and `goNextIfAllReady`. The lemmas here
  carry the protocol's guarantees:
  - an invariant that holds after any sequence of events (`scoredUpTo <= qIndex`,
    with the relation between the two fixed by the phase);
  - no question is ever scored twice;
  - each guard and each effect of the scoring commit and of the advance.
- **Host controller** (`room.dfy`, module `Rooms`). A `Room` class whose
  fields are the documents and whose methods do the source's loops over the
  players. The constructor is proved to build the room of `Game.Create`.
  Each event method (start game, submit, "Weiter", join and the two controller
  checks) is proved to have exactly the effect of the matching `Game` event
  and to keep the invariant. `StartQuestion` is the helper that `StartGame`
  and `GoNextIfAllReady` share. It matches `Game.StartQuestion` but keeps the
  invariant only through those two callers, because opening an arbitrary
  question from the lobby would break it.
- **Helpers** (`roomcode.dfy`, `html.dfy`, `results.dfy`). These are
  `normCode`, `makeRoomCode`, `escapeHtml`, `rankSaying` and the leaderboard
  order.

Each call is modelled as one atomic step. A batched write is all-or-nothing,
so a step either commits all its updates or none. When a scoring call throws
in the middle of the scoring loop, the batch is never committed. The model
represents this as "the room is unchanged".

Notes on what the code does:

- The readiness test counts distinct submitter uids for the current question
  and compares that count with the number of players. It does not compare the
  two sets. `Game.ReadinessMeansEveryoneSubmitted` shows that the two agree
  when only players submit.
- A player without a submission is scored with an absent answer. On the map
  question this throws: `scoreMapPick` dereferences the missing pin. So no
  score is committed for that question.
- The map score does not fall monotonically beyond 100 km. A pick inside the
  Prussia box scores 8 at any distance, which is more than a nearer pick
  outside the box gets. Monotonicity is proved for picks outside the box.
- The results phase is entered when `qIndex + 1 >= |QUESTIONS|`.
- `totalScore` only grows under the controller's steps. A re-join resets it to
  0 with a merge write.

## Model

| member | source | states |
|---|---|---|
| Scoring.MapScore | app.js:155-163 | A map pick scores between 0 and 10. It scores 10 exactly within 20 km of Berlin and 9 exactly between 20 and 100 km. Beyond 100 km it scores at most 8 (the box tier). |
| Scoring.Round | app.js:161 | `Math.round`: the result is the integer r with r ≤ x + 0.5 < r + 1. |
| Scoring.MapScoreMonotone | app.js:159-162 | Consider two picks beyond 100 km that are both outside the Prussia box. The farther one never scores more. |
| Scoring.TableWellFormed | app.js:24-53 | Every question of the table has non-negative point parameters. The final question has exactly three correct options and a positive penalty. |
| Scoring.SingleExactMatch | app.js:167-170 | A single-choice answer equal to `correct` gives `pointsCorrect` and "Richtig!". Any other answer, including an absent one, gives `pointsWrong` and a different message. |
| Scoring.SumPicks | app.js:172-177 | The multi-choice loop over the selected set returns pointsPerCorrect × (correct picks) − wrongPenaltyEach × (wrong picks). |
| Scoring.CountHits | app.js:182-184 | The final-question loop returns the number of selected options that are in the correct set. |
| Scoring.ScoreMulti | app.js:171-180 | Returns the multi-choice score: the loop's sum clamped to [0, max], with the message chosen by the result. |
| Scoring.ScoreFinal | app.js:181-189 | Returns the final-question score: 0 with no hit, otherwise max(0, max − (3 − hit) · penaltyPerMissing). |
| Scoring.ScoreQuestion | app.js:164-191 | Scoring by question index is exactly `ScoreAt`. It dispatches on the type. It throws for an index outside the table, for a map question without a pin, and for a multi-choice answer that cannot be iterated. |
| Scoring.MultiBounded | app.js:178-179 | Multi-choice points always lie in [0, max]. The message is "Perfekt!" exactly when the points equal max. |
| Scoring.MultiIgnoresOrderAndDuplicates | app.js:172 | Two selections with the same elements score the same, whatever their order and duplicates. An absent answer scores like an empty selection. |
| Scoring.MultiAbsentScoresZero | app.js:172-179 | An absent multi-choice answer scores 0 with "Leider nichts getroffen.". |
| Scoring.FinalNoHitScoresZero | app.js:185 | On the final question, zero hits give 0 points. |
| Scoring.FinalIgnoresWrongPicks | app.js:184-188 | On the final question, wrong picks change nothing: the score depends only on the correct picks. |
| Scoring.FinalPerfectIffAllPicked | app.js:186-188 | Final-question points lie in [0, max]. They equal max exactly when all three correct options are picked. |
| Scoring.TableScoresNonNegative | app.js:164-191 | No question of the table ever yields negative points. |
| RoomCode.NormCode | app.js:121 | The normalised code has at most 6 characters, all from A–Z and 0–9. |
| RoomCode.TrimIsRedundant | app.js:121 | Trimming does not affect the result: normalising equals filtering the upper-cased input and cutting it to 6 characters. |
| RoomCode.NormCodeFixesCodes | app.js:121 | A string of at most 6 characters from A–Z and 0–9 normalises to itself. |
| RoomCode.NormCodeIdempotent | app.js:121 | Normalising twice gives the same as normalising once. |
| RoomCode.MakeRoomCode | app.js:122-126 | The code has 6 characters. The i-th character is the alphabet symbol at the i-th draw. Every character is in the 32-symbol alphabet. `normCode` leaves the code unchanged. |
| Html.EscapeHtml | app.js:134 | The output contains no raw `<`, `>`, `"` or `'` and is at least as long as the input. |
| Html.EscapeRoundTrip | app.js:134 | Decoding the five entities recovers the input, so escaping loses nothing. |
| Html.EscapeAppend | app.js:134 | Escaping works character by character: the escape of a concatenation is the concatenation of the escapes. |
| Html.EscapePlainText | app.js:134 | Text without `& < > " '` is left unchanged. |
| Game.Create | app.js:213-228 | A new room is in the lobby with qIndex = scoredUpTo = −1, has the creator as its only player and has no submissions. It satisfies the invariant. |
| Game.JoinKeepsIdsUnique | app.js:251-258 | The join merge write keeps one player document per uid. |
| Game.EventKeepsInv | app.js:321-379 | Every event preserves the invariant: unique player ids, −1 ≤ scoredUpTo ≤ qIndex < 6, and scoredUpTo = qIndex − 1 in question phase and = qIndex in feedback and results. |
| Game.RunKeepsInv | app.js:321-379 | Any sequence of events starting from a valid room ends in a valid room. |
| Game.ReachableRoomsAreValid | app.js:213-219 | Every room reachable from creation satisfies the invariant, in particular scoredUpTo ≤ qIndex. |
| Game.EventScoredUpToMonotone | app.js:343-356 | Only a scoring commit changes scoredUpTo. It raises it from below qIndex to qIndex, in question phase. |
| Game.ScoringsStrictlyIncrease | app.js:335-356 | Along any sequence of events, the questions scored are strictly increasing and all lie above the starting scoredUpTo. No question is scored twice, and scoredUpTo never decreases. |
| Game.FeedbackGuards | app.js:331-344 | goToFeedbackIfReady changes nothing unless four things hold: the caller is host, the phase is question, scoredUpTo < qIndex, and the distinct submitters number at least the players. When these hold and every answer can be scored, it commits. |
| Game.FeedbackIdempotent | app.js:335-344 | Calling goToFeedbackIfReady a second time changes nothing. |
| Game.FeedbackCredits | app.js:346-357 | The scoring commit adds exactly each player's score to their total, and sets lastDelta and lastMsg to that score. A player with no submission is scored with an absent answer. readyNext, ids and names stay unchanged. The room moves to feedback with scoredUpTo = qIndex and keeps its qIndex. |
| Game.NextEffects | app.js:361-379 | goNextIfAllReady changes the room exactly when the caller is host, the phase is feedback and the player list is non-empty and all ready. Then, after the last question, it moves to results; otherwise it opens question qIndex + 1. It clears every readyNext and leaves totals, submissions and scoredUpTo unchanged. |
| Game.TotalsNeverDecrease | app.js:346-357 | No event except a re-join removes a player, changes a player's id or lowers a total. |
| Game.ReadinessMeansEveryoneSubmitted | app.js:339-341 | Assume only players submit. Then "distinct submitters ≥ players" holds exactly when every player has a submission for the current question. |
| Game.SingleChoiceRound | app.js:330-357 | In a two-player round on "18. Jahrhundert", the correct player gets 10 and the wrong one gets 1, and the room goes to feedback. |
| Rooms.ClearReadiness | app.js:323-325 | The loop over the players yields every player with readyNext false, ids unchanged. |
| Rooms.EveryoneReady | app.js:365 | True exactly when the list is non-empty and every player is ready. |
| Rooms.CreditAll | app.js:347-355 | The scoring loop succeeds exactly when every player's answer can be scored. It then credits each player with their score. |
| Rooms.Room.constructor | app.js:213-228 | The created room equals `Game.Create` and satisfies the invariant. |
| Rooms.Room.StartQuestion | app.js:321-328 | One batch clears every readyNext and sets phase question and qIndex := i. Nothing else changes. |
| Rooms.Room.StartGame | app.js:276-279 | The start button (host only, shown only in the lobby) opens question 0. It keeps the invariant. |
| Rooms.Room.GoToFeedbackIfReady | app.js:330-359 | The new state is `Game.GoToFeedback` of the old state, so every lemma about it applies. It is a no-op once scoredUpTo ≥ qIndex, and it keeps the invariant. |
| Rooms.Room.GoNextIfAllReady | app.js:361-379 | The new state is `Game.GoNext` of the old state, and the method keeps the invariant. |
| Rooms.Room.Submit | app.js:449-477 | While a question is open, writes the answer under (qIndex, uid). It keeps the invariant. |
| Rooms.Room.SetReady | app.js:519-522 | Sets the caller's readyNext, if the caller has a player document. It keeps the invariant. |
| Rooms.Room.Join | app.js:236-264 | Merge-writes a fresh player document for the uid: adds it, or resets an existing one. It keeps the invariant. |
| Rooms.ScoreTwice | app.js:553-558 | Two back-to-back controller passes have the effect of one, as the 800 ms polling and the listeners require. |
| Results.RankSaying | app.js:525-530 | Rank 1 gets "Du bist HIMM.". The last rank, when it is not 1, gets the fixed last text. Every rank in between gets one of the five sayings, and the index stays inside the array. |
| Results.RankSayingCycles | app.js:528-529 | The sayings of the middle ranks repeat every five ranks. |
| Results.RankedIsStableSort | app.js:532 | The leaderboard is sorted by descending total and is a permutation of the players. Players with equal totals keep their snapshot order. |

## Left out

- Firestore I/O is not modelled: `setDoc`, `getDoc`, `updateDoc`, `writeBatch`, the `onSnapshot` listeners and `serverTimestamp`. The documents are fields and values, and the timestamps (`createdAt`, `joinedAt`, `questionStartedAt`, `submittedAt`) are dropped.
- Anonymous sign-in and the auth listener are left out. The caller's uid is a parameter of each event.
- Races between clients are not modelled. Each controller call and each button action is one atomic step. Because of this, the fresh re-read of `scoredUpTo` before the batch can never fail in the model. The same holds for the window between that re-read and the commit.
- `goToFeedbackIfReady` installs a listener that fires again on every later change. The 800 ms polling loop also re-runs the controller. Both are represented by calling the controller again, which `Game.FeedbackIdempotent` and `Rooms.ScoreTwice` cover.
- `haversineKm` is floating-point trigonometry. A map pick carries its distance from Berlin as data, and the tiers and `Math.round` are computed on reals.
- Scoring.Score: in the source, a map question answered with a text or a list (not a pin) yields NaN points. The model treats that case as a throw. A client always writes a pin for the map question.
- RoomCode.NormCode: covers ASCII only. Unicode case mapping (`ß` → `SS`) and trimming of non-ASCII white space are left out. `normCode(null)` is not modelled because the input is always a string.
- Validation and error messages of the UI are left out: a missing name, a room code that is not six characters, a room that does not exist, no option chosen, no pin set.
- Rendering is left out: the views, the Leaflet map, the clipboard, the score ring, the status bar, and the player list ordered by `joinedAt`. Question titles, prompts and option lists are shown only by the UI and are not part of `Question`.
- The store orders players by document id. The model keeps them in creation and join order, and the leaderboard's tie order follows that order.
- Numbers are unbounded integers. JavaScript doubles hold every value that arises here exactly.
- `scoreQuestion`'s fallback `{points: 0, msg: ""}` for an unknown question type cannot arise, because the table has only the four modelled types.
