/** Reciprocal Rank Fusion as src/retriever.py does it: every appearance of a chunk id at
    0-based rank `r` in a candidate list is a vote worth 1/(60 + r); the votes are summed in
    a dict keyed by chunk id, and the dict's keys are sorted by descending score with
    Python's stable `sorted(..., reverse=True)`, so equal scores keep the dict's insertion
    order. Scores are exact reals. */
module Fusion {
  import opened Records

  /** The constant `k` of the fusion formula. */
  const RrfK: nat := 60

  /** One appearance of a chunk id in a candidate list, at 0-based rank `rank`. */
  datatype Vote = Vote(id: ChunkId, rank: nat)

  /** `1 / (k + rank)`: positive, at most 1/60, and smaller for every lower position. */
  function Contribution(rank: nat): (c: real)
    ensures 0.0 < c <= 1.0 / RrfK as real
  {
    var c := 1.0 / (RrfK + rank) as real;
    if rank == 0 then c
    else
      ReciprocalDecreasing(RrfK as real, (RrfK + rank) as real);
      c
  }

  predicate Distinct(s: seq<ChunkId>)
  {
    forall i, j :: 0 <= i < j < |s| ==> s[i] != s[j]
  }

  /** The chunk ids of the votes, in vote order. */
  function Ids(votes: seq<Vote>): seq<ChunkId>
  {
    seq(|votes|, i requires 0 <= i < |votes| => votes[i].id)
  }

  /** The first position of `x` in `s`, or |s| when it is absent. */
  function IndexOf(s: seq<ChunkId>, x: ChunkId): (i: nat)
    ensures i <= |s|
    ensures i < |s| <==> x in s
    ensures i < |s| ==> s[i] == x
    ensures forall j :: 0 <= j < i ==> s[j] != x
  {
    if s == [] then 0 else if s[0] == x then 0 else 1 + IndexOf(s[1..], x)
  }

  /** Reference definition of a fused score: the sum of 1/(k + rank) over every vote for `id`. */
  function RrfScore(votes: seq<Vote>, id: ChunkId): real
  {
    if votes == [] then 0.0
    else (if votes[0].id == id then Contribution(votes[0].rank) else 0.0) + RrfScore(votes[1..], id)
  }

  /** The `scores` dict: its keys in insertion order and the value stored under each key. */
  datatype Tally = Tally(order: seq<ChunkId>, score: map<ChunkId, real>)

  /** The dict after the loops `if id not in scores: scores[id] = 0; scores[id] += 1 / (k + rank)`
      have run over `votes` (AccumulateKeys and AccumulateScores say what it holds). */
  function Accumulate(votes: seq<Vote>): Tally
  {
    if votes == [] then Tally([], map[])
    else
      var prefix := votes[..|votes| - 1];
      var v := votes[|votes| - 1];
      var t := Accumulate(prefix);
      var seeded := if v.id in t.score then t else Tally(t.order + [v.id], t.score[v.id := 0.0]);
      Tally(seeded.order, seeded.score[v.id := seeded.score[v.id] + Contribution(v.rank)])
  }

  /** The dict's keys are exactly the voted ids, each once, and the key list and the
      dict agree. */
  lemma {:induction false} AccumulateKeys(votes: seq<Vote>)
    ensures forall id :: id in Accumulate(votes).score <==> id in Accumulate(votes).order
    ensures forall id :: id in Accumulate(votes).order <==> id in Ids(votes)
    ensures Distinct(Accumulate(votes).order)
  {
    if votes != [] {
      var prefix := votes[..|votes| - 1];
      var v := votes[|votes| - 1];
      assert Ids(votes) == Ids(prefix) + [v.id];
      AccumulateKeys(prefix);
    }
  }

  /** One more vote: a new id is appended to the keys, and the vote's contribution is added
      to the id's score (counted from 0 for a new id). */
  lemma AccumulateStep(votes: seq<Vote>, v: Vote)
    ensures Accumulate(votes + [v]).order
      == if v.id in Accumulate(votes).score then Accumulate(votes).order else Accumulate(votes).order + [v.id]
    ensures Accumulate(votes + [v]).score
      == Accumulate(votes).score[v.id := ScoreOf(Accumulate(votes), v.id) + Contribution(v.rank)]
  {
    var w := votes + [v];
    assert w[..|w| - 1] == votes;
  }

  /** The score Python's sort key `lambda x: scores[x]` reads. */
  function ScoreOf(t: Tally, id: ChunkId): real
  {
    if id in t.score then t.score[id] else 0.0
  }

  /** `x` comes before `y` in `sorted(scores.keys(), key=scores.get, reverse=True)`: a higher
      score, or the same score and an earlier key (the sort is stable). */
  predicate Ahead(t: Tally, x: ChunkId, y: ChunkId)
  {
    ScoreOf(t, x) > ScoreOf(t, y) || (ScoreOf(t, x) == ScoreOf(t, y) && IndexOf(t.order, x) < IndexOf(t.order, y))
  }

  predicate RankedBy(t: Tally, s: seq<ChunkId>)
  {
    forall i, j :: 0 <= i < j < |s| ==> Ahead(t, s[i], s[j])
  }

  /** Places `x` into the ranked sequence `s`. */
  function InsertRanked(t: Tally, x: ChunkId, s: seq<ChunkId>): (r: seq<ChunkId>)
    requires x in t.order && x !in s
    requires forall y :: y in s ==> y in t.order
    requires RankedBy(t, s)
    ensures |r| == |s| + 1
    ensures forall y :: y in r <==> y == x || y in s
    ensures RankedBy(t, r)
  {
    if s == [] then
      [x]
    else if Ahead(t, x, s[0]) then
      AheadOfRanked(t, x, s);
      RankedCons(t, x, s);
      [x] + s
    else
      var rest := InsertRanked(t, x, s[1..]);
      AheadTotal(t, x, s[0]);
      AheadOfInserted(t, s, x, rest);
      RankedCons(t, s[0], rest);
      [s[0]] + rest
  }

  lemma AheadTransitive(t: Tally, x: ChunkId, y: ChunkId, z: ChunkId)
    requires Ahead(t, x, y) && Ahead(t, y, z)
    ensures Ahead(t, x, z)
  {
  }

  /** Two different keys of the dict are always ordered one way or the other. */
  lemma AheadTotal(t: Tally, x: ChunkId, y: ChunkId)
    requires x in t.order && y in t.order && x != y
    ensures Ahead(t, x, y) || Ahead(t, y, x)
  {
  }

  /** Whatever is ahead of the head of a ranked sequence is ahead of all of it. */
  lemma AheadOfRanked(t: Tally, x: ChunkId, s: seq<ChunkId>)
    requires s != [] && Ahead(t, x, s[0]) && RankedBy(t, s)
    ensures forall y :: y in s ==> Ahead(t, x, y)
  {
    forall y | y in s
      ensures Ahead(t, x, y)
    {
      var j :| 0 <= j < |s| && s[j] == y;
      if j > 0 {
        AheadTransitive(t, x, s[0], y);
      }
    }
  }

  lemma AheadOfInserted(t: Tally, s: seq<ChunkId>, x: ChunkId, rest: seq<ChunkId>)
    requires s != [] && RankedBy(t, s) && Ahead(t, s[0], x)
    requires forall y :: y in rest <==> y == x || y in s[1..]
    ensures forall y :: y in rest ==> Ahead(t, s[0], y)
  {
    forall y | y in rest
      ensures Ahead(t, s[0], y)
    {
      if y != x {
        var j :| 0 <= j < |s[1..]| && s[1..][j] == y;
        assert s[j + 1] == y;
      }
    }
  }

  lemma RankedCons(t: Tally, h: ChunkId, rest: seq<ChunkId>)
    requires RankedBy(t, rest)
    requires forall y :: y in rest ==> Ahead(t, h, y)
    ensures RankedBy(t, [h] + rest)
  {
    var r := [h] + rest;
    forall i, j | 0 <= i < j < |r|
      ensures Ahead(t, r[i], r[j])
    {
      if i == 0 {
        assert r[j] == rest[j - 1];
        assert r[j] in rest;
      } else {
        assert r[i] == rest[i - 1] && r[j] == rest[j - 1];
      }
    }
  }

  /** Sorts the distinct keys `l` (all of them keys of `t`) into ranking order. */
  function SortRanked(t: Tally, l: seq<ChunkId>): (r: seq<ChunkId>)
    requires Distinct(l)
    requires forall y :: y in l ==> y in t.order
    ensures |r| == |l|
    ensures forall y :: y in r <==> y in l
    ensures RankedBy(t, r)
  {
    if l == [] then []
    else
      assert forall y :: y in l[1..] ==> y in l;
      assert l[0] !in l[1..];
      InsertRanked(t, l[0], SortRanked(t, l[1..]))
  }

  /** `sorted(scores.keys(), key=lambda x: scores[x], reverse=True)`: every key once, by
      descending score, equal scores in insertion order. */
  function Rank(t: Tally): (r: seq<ChunkId>)
    requires Distinct(t.order)
    ensures |r| == |t.order|
    ensures forall y :: y in r <==> y in t.order
    ensures RankedBy(t, r)
  {
    SortRanked(t, t.order)
  }

  lemma ReciprocalDecreasing(a: real, b: real)
    requires 0.0 < a < b
    ensures 0.0 < 1.0 / b < 1.0 / a
  {
    var x, y := 1.0 / a, 1.0 / b;
    assert x * a == 1.0 && y * b == 1.0;
    ScaleStrict(x, a, b);
    if x <= y {
      ScaleMonotone(x, y, b);
    }
  }

  lemma ScaleStrict(x: real, a: real, b: real)
    requires x > 0.0 && a < b
    ensures x * a < x * b
  {
  }

  lemma ScaleMonotone(x: real, y: real, b: real)
    requires x <= y && b > 0.0
    ensures x * b <= y * b
  {
  }

  /** A vote at a better (smaller) rank is worth strictly more. */
  lemma ContributionDecreasing(better: nat, worse: nat)
    requires better < worse
    ensures Contribution(better) > Contribution(worse)
  {
    ReciprocalDecreasing((RrfK + better) as real, (RrfK + worse) as real);
  }

  /** The fused score over two concatenated vote lists is the sum of the two lists' scores. */
  lemma {:induction false} RrfScoreAppend(a: seq<Vote>, b: seq<Vote>, id: ChunkId)
    ensures RrfScore(a + b, id) == RrfScore(a, id) + RrfScore(b, id)
  {
    if a == [] {
      assert a + b == b;
    } else {
      assert (a + b)[1..] == a[1..] + b;
      RrfScoreAppend(a[1..], b, id);
    }
  }

  /** An id with no vote scores zero. */
  lemma {:induction false} RrfScoreAbsent(votes: seq<Vote>, id: ChunkId)
    requires id !in Ids(votes)
    ensures RrfScore(votes, id) == 0.0
  {
    if votes != [] {
      assert Ids(votes)[0] == votes[0].id;
      assert Ids(votes[1..]) == Ids(votes)[1..];
      RrfScoreAbsent(votes[1..], id);
    }
  }

  /** An id voted for exactly once, at rank `r`, gets that single contribution 1/(k + r). */
  lemma {:induction false} RrfScoreSingle(votes: seq<Vote>, p: nat, id: ChunkId)
    requires p < |votes| && votes[p].id == id
    requires forall q :: 0 <= q < |votes| && q != p ==> votes[q].id != id
    ensures RrfScore(votes, id) == Contribution(votes[p].rank)
  {
    if p == 0 {
      assert forall q :: 0 <= q < |votes| - 1 ==> Ids(votes[1..])[q] == votes[q + 1].id;
      RrfScoreAbsent(votes[1..], id);
    } else {
      RrfScoreSingle(votes[1..], p - 1, id);
    }
  }

  /** After the loops, the dict holds under every key the sum of that key's votes. */
  lemma {:induction false} AccumulateScores(votes: seq<Vote>)
    ensures forall id :: id in Accumulate(votes).score ==> Accumulate(votes).score[id] == RrfScore(votes, id)
  {
    if votes != [] {
      var prefix := votes[..|votes| - 1];
      var v := votes[|votes| - 1];
      AccumulateScores(prefix);
      assert votes == prefix + [v];
      assert [v][1..] == [];
      forall id | id in Accumulate(votes).score
        ensures Accumulate(votes).score[id] == RrfScore(votes, id)
      {
        RrfScoreAppend(prefix, [v], id);
        if id !in Accumulate(prefix).score {
          AccumulateKeys(prefix);
          RrfScoreAbsent(prefix, id);
        }
      }
    }
  }

  lemma {:induction false} IndexOfAppend(s: seq<ChunkId>, a: ChunkId, x: ChunkId)
    ensures IndexOf(s + [a], x) == if x in s then IndexOf(s, x) else if x == a then |s| else |s| + 1
  {
    if s != [] {
      assert (s + [a])[1..] == s[1..] + [a];
      IndexOfAppend(s[1..], a, x);
    }
  }

  /** The dict's keys are in the order in which the ids first appear among the votes. */
  lemma {:induction false} AccumulateOrder(votes: seq<Vote>, x: ChunkId, y: ChunkId)
    requires x in Ids(votes) && y in Ids(votes)
    ensures IndexOf(Accumulate(votes).order, x) < IndexOf(Accumulate(votes).order, y)
        <==> IndexOf(Ids(votes), x) < IndexOf(Ids(votes), y)
  {
    var prefix := votes[..|votes| - 1];
    var v := votes[|votes| - 1];
    var before := Accumulate(prefix).order;
    assert votes == prefix + [v];
    assert Ids(votes) == Ids(prefix) + [v.id];
    AccumulateKeys(prefix);
    AccumulateStep(prefix, v);
    IndexOfAppend(Ids(prefix), v.id, x);
    IndexOfAppend(Ids(prefix), v.id, y);
    IndexOfAppend(before, v.id, x);
    IndexOfAppend(before, v.id, y);
    if x in Ids(prefix) && y in Ids(prefix) {
      AccumulateOrder(prefix, x, y);
    }
  }

  /** The order of the sorted keys, restated on the reference definitions: a higher summed
      score, or an equal one and an earlier first vote. */
  predicate FusedAhead(votes: seq<Vote>, x: ChunkId, y: ChunkId)
  {
    RrfScore(votes, x) > RrfScore(votes, y)
    || (RrfScore(votes, x) == RrfScore(votes, y) && IndexOf(Ids(votes), x) < IndexOf(Ids(votes), y))
  }

  /** Comparing two keys of the dict is comparing their summed votes and first appearances. */
  lemma AheadIsFusedAhead(votes: seq<Vote>, x: ChunkId, y: ChunkId)
    requires x in Ids(votes) && y in Ids(votes)
    ensures Ahead(Accumulate(votes), x, y) <==> FusedAhead(votes, x, y)
  {
    AccumulateKeys(votes);
    AccumulateScores(votes);
    AccumulateOrder(votes, x, y);
  }

  /** The sorted keys of the dict built from `votes`: every voted id exactly once. */
  function RankVotes(votes: seq<Vote>): (r: seq<ChunkId>)
    ensures forall id :: id in r <==> id in Ids(votes)
    ensures Distinct(r)
  {
    AccumulateKeys(votes);
    var r := Rank(Accumulate(votes));
    assert forall i, j :: 0 <= i < j < |r| ==> Ahead(Accumulate(votes), r[i], r[j]);
    r
  }

  /** The sorted keys are in descending summed score, equal sums in order of first vote. */
  lemma RankVotesOrder(votes: seq<Vote>)
    ensures forall i, j :: 0 <= i < j < |RankVotes(votes)| ==> FusedAhead(votes, RankVotes(votes)[i], RankVotes(votes)[j])
  {
    AccumulateKeys(votes);
    var r := RankVotes(votes);
    forall i, j | 0 <= i < j < |r|
      ensures FusedAhead(votes, r[i], r[j])
    {
      assert r[i] in r && r[j] in r;
      AheadIsFusedAhead(votes, r[i], r[j]);
    }
  }

  /** A voted id that is not among the first `n` sorted keys is behind every one of them. */
  lemma RankVotesTop(votes: seq<Vote>, n: nat, id: ChunkId)
    requires n <= |RankVotes(votes)|
    requires id in Ids(votes) && id !in RankVotes(votes)[..n]
    ensures forall i :: 0 <= i < n ==> FusedAhead(votes, RankVotes(votes)[i], id)
  {
    var r := RankVotes(votes);
    RankVotesOrder(votes);
    var m :| 0 <= m < |r| && r[m] == id;
  }
}
