/**
 The leaderboard order: the LINQ chain
   OrderByDescending(TotalScore).ThenBy(RegistrationDate)
     .ThenByDescending(PlayerLevel).ThenByDescending(TrophyCount)
 as a three-way comparer, the at-or-above relation it induces, and a sort
 that produces a ranked permutation of its input.
 */
module Ranking {
  import opened Models

  /** The composite comparer LINQ builds from the key chain: negative when
      `a` ranks above `b`, positive when below, zero on a tie of all four keys. */
  function Compare(a: PlayerLeaderboardDto, b: PlayerLeaderboardDto): (r: int)
    ensures r == -1 || r == 0 || r == 1
    ensures r == 0 <==> RankKey(a) == RankKey(b)
    ensures r < 0 <==> LexLeq(RankKey(a), RankKey(b)) && RankKey(a) != RankKey(b)
  {
    if a.totalScore != b.totalScore then
      (if a.totalScore > b.totalScore then -1 else 1)
    else if a.registrationDate != b.registrationDate then
      (if a.registrationDate < b.registrationDate then -1 else 1)
    else if a.playerLevel != b.playerLevel then
      (if a.playerLevel > b.playerLevel then -1 else 1)
    else if a.trophyCount != b.trophyCount then
      (if a.trophyCount > b.trophyCount then -1 else 1)
    else
      0
  }

  /** `a` may be listed before `b`. */
  predicate RanksAtOrAbove(a: PlayerLeaderboardDto, b: PlayerLeaderboardDto) {
    Compare(a, b) <= 0
  }

  // An independent description of the same order: ascending lexicographic
  // order on the key tuple (-TotalScore, RegistrationDate, -PlayerLevel, -TrophyCount).

  function RankKey(a: PlayerLeaderboardDto): (int, int, int, int) {
    (-(a.totalScore as int), a.registrationDate, -(a.playerLevel as int), -(a.trophyCount as int))
  }

  predicate LexLeq(x: (int, int, int, int), y: (int, int, int, int)) {
    x.0 < y.0 || (x.0 == y.0 &&
    (x.1 < y.1 || (x.1 == y.1 &&
    (x.2 < y.2 || (x.2 == y.2 &&
    x.3 <= y.3)))))
  }

  /** The comparer agrees with the key-tuple order, is antisymmetric in sign,
      and reports a tie exactly when all four keys agree. */
  lemma CompareMatchesRankKey(a: PlayerLeaderboardDto, b: PlayerLeaderboardDto)
    ensures RanksAtOrAbove(a, b) <==> LexLeq(RankKey(a), RankKey(b))
    ensures Compare(a, b) == -Compare(b, a)
    ensures Compare(a, b) == 0 <==> RankKey(a) == RankKey(b)
  {
  }

  /** The ranking relation is a total preorder. It is not antisymmetric:
      two players with identical keys tie. */
  lemma RankingIsTotalPreorder()
    ensures forall a :: RanksAtOrAbove(a, a)
    ensures forall a, b, c :: RanksAtOrAbove(a, b) && RanksAtOrAbove(b, c) ==> RanksAtOrAbove(a, c)
    ensures forall a, b :: RanksAtOrAbove(a, b) || RanksAtOrAbove(b, a)
  {
  }

  /** Every entry ranks at or above every entry listed after it. */
  predicate IsRanked(s: seq<PlayerLeaderboardDto>) {
    forall i, j | 0 <= i < j < |s| :: RanksAtOrAbove(s[i], s[j])
  }

  /** Ranked means: each adjacent pair is in order (the relation is transitive). */
  lemma {:induction false} AdjacentOrderIsRanked(s: seq<PlayerLeaderboardDto>)
    requires forall i | 0 <= i < |s| - 1 :: RanksAtOrAbove(s[i], s[i + 1])
    ensures IsRanked(s)
    decreases |s|
  {
    if |s| > 1 {
      var t := s[1..];
      forall i | 0 <= i < |t| - 1
        ensures RanksAtOrAbove(t[i], t[i + 1])
      {
        assert t[i] == s[i + 1] && t[i + 1] == s[i + 2];
      }
      AdjacentOrderIsRanked(t);
      forall j | 1 <= j < |s|
        ensures RanksAtOrAbove(s[0], s[j])
      {
        assert s[j] == t[j - 1];
        if j > 1 {
          assert RanksAtOrAbove(s[1], s[j]);
        }
      }
    }
  }

  /** Inserts `d` into a ranked board, after every entry it does not rank
      strictly above. */
  function Insert(d: PlayerLeaderboardDto, s: seq<PlayerLeaderboardDto>): (r: seq<PlayerLeaderboardDto>)
    requires IsRanked(s)
    ensures IsRanked(r)
    ensures multiset(r) == multiset(s) + multiset{d}
  {
    if |s| == 0 then
      [d]
    else if Compare(d, s[0]) < 0 then
      PrependRanked(d, s);
      [d] + s
    else
      var rest := Insert(d, s[1..]);
      assert s == [s[0]] + s[1..];
      forall y | y in rest
        ensures RanksAtOrAbove(s[0], y)
      {
        assert y in multiset(rest);
        if y != d {
          assert y in multiset(s[1..]);
        }
      }
      PrependRanked(s[0], rest);
      [s[0]] + rest
  }

  /** A head that ranks at or above every entry of a ranked tail keeps the
      sequence ranked. */
  lemma PrependRanked(x: PlayerLeaderboardDto, s: seq<PlayerLeaderboardDto>)
    requires IsRanked(s)
    requires forall y | y in s :: RanksAtOrAbove(x, y)
    ensures IsRanked([x] + s)
  {
    var r := [x] + s;
    forall i, j | 0 <= i < j < |r|
      ensures RanksAtOrAbove(r[i], r[j])
    {
      assert r[j] == s[j - 1];
      if i > 0 {
        assert r[i] == s[i - 1];
      }
    }
  }

  /** The leaderboard sort, as an insertion sort: the result is ranked and
      holds exactly the entries of the input. */
  function SortByRank(s: seq<PlayerLeaderboardDto>): (r: seq<PlayerLeaderboardDto>)
    ensures IsRanked(r)
    ensures multiset(r) == multiset(s)
    decreases |s|
  {
    if |s| == 0 then
      []
    else
      assert s == s[..|s| - 1] + [s[|s| - 1]];
      Insert(s[|s| - 1], SortByRank(s[..|s| - 1]))
  }

  /** What the ranking promises about positions in a ranked board: a higher
      total comes first; on equal totals the earlier registration comes first
      whatever the level and trophies; on equal total and date the higher
      level comes first; on equal total, date and level, more trophies first. */
  lemma RankedPositions(board: seq<PlayerLeaderboardDto>, i: int, j: int)
    requires IsRanked(board)
    requires 0 <= i < |board| && 0 <= j < |board|
    ensures board[i].totalScore > board[j].totalScore ==> i < j
    ensures (&& board[i].totalScore == board[j].totalScore
             && board[i].registrationDate < board[j].registrationDate) ==> i < j
    ensures (&& board[i].totalScore == board[j].totalScore
             && board[i].registrationDate == board[j].registrationDate
             && board[i].playerLevel > board[j].playerLevel) ==> i < j
    ensures (&& board[i].totalScore == board[j].totalScore
             && board[i].registrationDate == board[j].registrationDate
             && board[i].playerLevel == board[j].playerLevel
             && board[i].trophyCount > board[j].trophyCount) ==> i < j
  {
    if j < i {
      assert RanksAtOrAbove(board[j], board[i]);
    }
  }
}
