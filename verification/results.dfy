/** The results screen: the leaderboard order and the saying shown per rank. */
module Results {
  import opened Game

  const FIRST_SAYING: string := "Du bist HIMM."
  const LAST_SAYING: string := "Weißt du überhaupt, wer Friedrich ist?"
  const SAYINGS: seq<string> := [
    "Stabil – aber da geht noch was.",
    "Nicht schlecht, Soldat.",
    "Du bist auf dem richtigen Weg.",
    "Solide Runde.",
    "Fast königlich."
  ]

  /** rankSaying(rank, total) for a rank of the leaderboard: rank 1 and the
      last rank have fixed texts (rank 1 wins when it is also last); the ranks
      in between cycle through the five sayings. */
  function RankSaying(rank: int, total: int): (r: string)
    requires 1 <= rank <= total
    ensures rank == 1 <==> r == FIRST_SAYING
    ensures rank != 1 && rank == total <==> r == LAST_SAYING
    ensures 1 < rank < total <==> r in SAYINGS
  {
    if rank == 1 then FIRST_SAYING
    else if rank == total then LAST_SAYING
    else SAYINGS[(rank - 2) % |SAYINGS|]
  }

  /** The sayings of the middle ranks repeat every five ranks. */
  lemma RankSayingCycles(rank: int, total: int)
    requires 1 < rank && rank + |SAYINGS| < total
    ensures RankSaying(rank + |SAYINGS|, total) == RankSaying(rank, total)
  {
    assert (rank + |SAYINGS| - 2) % |SAYINGS| == (rank - 2) % |SAYINGS|;
  }

  // ---------------------------------------------------------------- leaderboard

  predicate Descending(ps: seq<Player>)
  {
    forall i, j :: 0 <= i < j < |ps| ==> ps[i].totalScore >= ps[j].totalScore
  }

  /** The players with a given total, in their order. */
  function WithScore(ps: seq<Player>, v: int): seq<Player>
  {
    if ps == [] then []
    else (if ps[0].totalScore == v then [ps[0]] else []) + WithScore(ps[1..], v)
  }

  /** Puts p in front of the first player whose total is not above its own. */
  function Insert(p: Player, sorted: seq<Player>): seq<Player>
  {
    if sorted == [] || sorted[0].totalScore <= p.totalScore then [p] + sorted
    else [sorted[0]] + Insert(p, sorted[1..])
  }

  /** The order of renderResults: `sort((a, b) => b.totalScore - a.totalScore)`,
      a stable sort, so players with equal totals keep their snapshot order. */
  function Ranked(ps: seq<Player>): seq<Player>
  {
    if ps == [] then [] else Insert(ps[0], Ranked(ps[1..]))
  }

  lemma {:induction false} InsertFacts(p: Player, t: seq<Player>)
    requires Descending(t)
    ensures Descending(Insert(p, t))
    ensures multiset(Insert(p, t)) == multiset(t) + multiset{p}
    ensures |Insert(p, t)| == |t| + 1
    ensures Insert(p, t) != [] && (Insert(p, t)[0] == p || (t != [] && Insert(p, t)[0] == t[0]))
  {
    if t == [] || t[0].totalScore <= p.totalScore {
    } else {
      InsertFacts(p, t[1..]);
      assert t == [t[0]] + t[1..];
      var r := [t[0]] + Insert(p, t[1..]);
      forall i, j | 0 <= i < j < |r| ensures r[i].totalScore >= r[j].totalScore {
        if i == 0 {
          assert r[j] in multiset(Insert(p, t[1..]));
          assert r[j] == p || r[j] in multiset(t[1..]);
          if r[j] != p {
            var k :| 0 <= k < |t[1..]| && t[1..][k] == r[j];
            assert t[k + 1] == r[j];
          }
        }
      }
    }
  }

  lemma {:induction false} WithScoreAppend(a: seq<Player>, b: seq<Player>, v: int)
    ensures WithScore(a + b, v) == WithScore(a, v) + WithScore(b, v)
  {
    if a == [] {
      assert a + b == b;
    } else {
      assert (a + b)[1..] == a[1..] + b;
      WithScoreAppend(a[1..], b, v);
    }
  }

  /** Inserting p adds it in front of every player of equal total that is
      already placed: the later players of a tie stay behind it. */
  lemma {:induction false} InsertStable(p: Player, t: seq<Player>, v: int)
    ensures WithScore(Insert(p, t), v) == (if p.totalScore == v then [p] else []) + WithScore(t, v)
  {
    if t == [] || t[0].totalScore <= p.totalScore {
      if t != [] && t[0].totalScore == v && p.totalScore != v {
        assert WithScore([p] + t, v) == WithScore(t, v) by {
          assert ([p] + t)[1..] == t;
        }
      }
      assert ([p] + t)[1..] == t;
    } else {
      InsertStable(p, t[1..], v);
      assert ([t[0]] + Insert(p, t[1..]))[1..] == Insert(p, t[1..]);
      if p.totalScore == v {
        // t[0] has a higher total than p, so it is not one of the ties
        assert t[0].totalScore != v;
      }
    }
  }

  /** The leaderboard is sorted by descending total, holds exactly the
      players, and players with equal totals keep their relative order. */
  lemma {:induction false} RankedIsStableSort(ps: seq<Player>)
    ensures Descending(Ranked(ps))
    ensures multiset(Ranked(ps)) == multiset(ps)
    ensures forall v :: WithScore(Ranked(ps), v) == WithScore(ps, v)
  {
    if ps != [] {
      RankedIsStableSort(ps[1..]);
      InsertFacts(ps[0], Ranked(ps[1..]));
      assert ps == [ps[0]] + ps[1..];
      forall v ensures WithScore(Ranked(ps), v) == WithScore(ps, v) {
        InsertStable(ps[0], Ranked(ps[1..]), v);
        WithScoreAppend([ps[0]], ps[1..], v);
      }
    }
  }
}
