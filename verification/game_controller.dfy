/**
 `GameController`: score submission and the leaderboard endpoint.

 A submission first appends the score row to the store and saves it, then
 reads the player's cached aggregate, looks the player up, merges the new
 score into the aggregate (or builds a fresh one on a miss) and writes it
 back under `leaderboard:{playerId}`. Each external call can throw; an
 exception ends the request with a server error and nothing is undone, so a
 saved row stays saved whatever happens to the cache afterwards. There is no
 retry and no rollback.
 */
module GameController {
  import opened BoundedInts
  import opened Wrappers
  import opened Models
  import opened Store
  import opened RedisCacheService
  import Ranking

  /** The two stores a request works on. */
  datatype State = State(db: Db, cache: Cache)

  /** Which external call of a submission throws. */
  datatype Faults = Faults(
    saveFails: bool,        // SaveChangesAsync cannot reach the database
    cacheReadFails: bool,   // GetStringAsync throws
    findFails: bool,        // Players.FindAsync throws
    cacheWriteFails: bool)  // SetStringAsync throws

  const NO_FAULTS: Faults := Faults(false, false, false, false)

  /** The exception that ended a submission. */
  datatype Fault =
    | SaveFailed(cause: SaveError)
    | CacheReadFailed
    | PlayerLookupFailed
    | PlayerMissing       // NullReferenceException: `player` is null on a cache miss
    | CacheWriteFailed

  datatype Response = Ok | InternalError(fault: Fault)

  /** The state after a request and what the caller is told. */
  datatype Submission = Submission(state: State, response: Response)

  /** The record a submission writes back, from what the cache returned and
      the player row. On a hit the stored record keeps every field but the
      total, which grows by `newScore` with 32-bit wrap-around; on a miss a
      fresh record starts at `newScore` and copies the player's registration
      date, level and trophies (earlier scores are not summed in); a miss
      without a player row dereferences null. */
  function MergeScore(cached: Option<CacheValue>, player: Option<Player>, playerId: int32, newScore: int32)
    : (r: Result<PlayerLeaderboardDto, Fault>)
    ensures !IsNullOrEmpty(cached) ==>
              && r.Success?
              && r.value.playerId == cached.value.dto.playerId
              && r.value.registrationDate == cached.value.dto.registrationDate
              && r.value.playerLevel == cached.value.dto.playerLevel
              && r.value.trophyCount == cached.value.dto.trophyCount
              && (r.value.totalScore - cached.value.dto.totalScore - newScore) % TWO_TO_THE_32 == 0
              && (InInt32Range(cached.value.dto.totalScore + newScore) ==>
                    r.value.totalScore == cached.value.dto.totalScore + newScore)
    ensures IsNullOrEmpty(cached) && player.None? ==> r == Failure(PlayerMissing)
    ensures IsNullOrEmpty(cached) && player.Some? ==>
              && r.Success?
              && r.value.playerId == playerId
              && r.value.totalScore == newScore
              && r.value.registrationDate == player.value.registrationDate
              && r.value.playerLevel == player.value.playerLevel
              && r.value.trophyCount == player.value.trophyCount
  {
    if !IsNullOrEmpty(cached) then
      var playerData := cached.value.dto;
      Success(playerData.(totalScore := AddWrapped(playerData.totalScore, newScore)))
    else if player.None? then
      Failure(PlayerMissing)
    else
      Success(PlayerLeaderboardDto(
        playerId,
        newScore,
        player.value.registrationDate,
        player.value.playerLevel,
        player.value.trophyCount))
  }

  /** The store gained exactly one row, at the end, for this player and score;
      the earlier rows and the players are as they were. */
  predicate AppendedOne(before: Db, after: Db, playerId: int32, matchScore: int32, now: DateTime) {
    && |after.scores| == |before.scores| + 1
    && after.scores[..|before.scores|] == before.scores
    && after.scores[|before.scores|].playerId == playerId
    && after.scores[|before.scores|].matchScore == matchScore
    && after.scores[|before.scores|].scoreTime == now
    && after.players == before.players
  }

  /** `SubmitScore` for the authenticated player `playerId` at clock value
      `now`, with `faults` naming the external calls that throw. */
  function SubmitScore(s: State, playerId: int32, matchScore: int32, now: DateTime, faults: Faults)
    : (r: Submission)
    // The row is saved first, and nothing afterwards removes it.
    ensures faults.saveFails || playerId !in s.db.players ==>
              r.state == s && r.response.InternalError? && r.response.fault.SaveFailed?
    ensures !faults.saveFails && playerId in s.db.players ==>
              AppendedOne(s.db, r.state.db, playerId, matchScore, now)
    // Only the player's own key can change, and only on success.
    ensures forall k | k != LeaderboardKey(playerId) :: GetString(r.state.cache, k) == GetString(s.cache, k)
    ensures r.response.InternalError? ==> r.state.cache == s.cache
    // The request succeeds exactly when no call throws and the player exists;
    // the null dereference on a miss never happens, because the foreign key
    // already refused the row of an unknown player.
    ensures r.response.Ok? <==> faults == NO_FAULTS && playerId in s.db.players
    ensures r.response != InternalError(PlayerMissing)
    ensures r.response.Ok? ==>
              var written := GetString(r.state.cache, LeaderboardKey(playerId));
              && written.Some? && written.value.Stored?
              && MergeScore(GetString(s.cache, LeaderboardKey(playerId)), FindPlayer(s.db, playerId),
                            playerId, matchScore)
                 == Success(written.value.dto)
  {
    match SaveScore(s.db, playerId, matchScore, now, faults.saveFails)
    case Failure(e) => Submission(s, InternalError(SaveFailed(e)))
    case Success(db) =>
      var saved := State(db, s.cache);
      var key := LeaderboardKey(playerId);
      if faults.cacheReadFails then
        Submission(saved, InternalError(CacheReadFailed))
      else
        var cached := GetString(s.cache, key);
        if faults.findFails then
          Submission(saved, InternalError(PlayerLookupFailed))
        else
          match MergeScore(cached, FindPlayer(db, playerId), playerId, matchScore)
          case Failure(e) => Submission(saved, InternalError(e))
          case Success(playerData) =>
            if faults.cacheWriteFails then
              Submission(saved, InternalError(CacheWriteFailed))
            else
              Submission(State(db, SetString(s.cache, key, Stored(playerData))), Ok)
  }

  /** `GetLeaderboard` hands the cache to `GetLeaderboardAsync` unchanged. */
  method GetLeaderboard(s: State) returns (board: seq<PlayerLeaderboardDto>)
    ensures Ranking.IsRanked(board)
    ensures forall d :: multiset(board)[d] == |KeysHolding(s.cache, d)|
  {
    board := RedisCacheService.GetLeaderboard(s.cache);
  }

  /** The row a submission appends. */
  function NewRow(db: Db, playerId: int32, matchScore: int32, now: DateTime): Score {
    Score(db.nextScoreId, playerId, matchScore, now)
  }

  /** The store after a successful save of that row. */
  function SavedDb(db: Db, playerId: int32, matchScore: int32, now: DateTime): Db {
    db.(scores := db.scores + [NewRow(db, playerId, matchScore, now)], nextScoreId := db.nextScoreId + 1)
  }

  /** The record a fault-free submission writes, given that the player exists. */
  function MergedRecord(s: State, playerId: int32, matchScore: int32): PlayerLeaderboardDto
    requires playerId in s.db.players
  {
    MergeScore(GetString(s.cache, LeaderboardKey(playerId)), FindPlayer(s.db, playerId),
               playerId, matchScore).value
  }

  /** Both stores after a fault-free submission by an existing player. */
  function Committed(s: State, playerId: int32, matchScore: int32, now: DateTime): State
    requires playerId in s.db.players
  {
    State(SavedDb(s.db, playerId, matchScore, now),
          SetString(s.cache, LeaderboardKey(playerId), Stored(MergedRecord(s, playerId, matchScore))))
  }

  /** A submission by an existing player in which no call throws: the row is
      appended, the merged record is written under the player's key, and
      the request succeeds. */
  lemma SubmitWithoutFaults(s: State, playerId: int32, matchScore: int32, now: DateTime)
    requires playerId in s.db.players
    ensures SubmitScore(s, playerId, matchScore, now, NO_FAULTS)
            == Submission(Committed(s, playerId, matchScore, now), Ok)
  {
    var db := SaveScore(s.db, playerId, matchScore, now, false).value;
    assert FindPlayer(db, playerId) == FindPlayer(s.db, playerId);
  }

  /** A submission by an existing player whose cache write throws: the row
      is appended, the cache is as it was, and the request fails. */
  lemma SubmitWithFailedWrite(s: State, playerId: int32, matchScore: int32, now: DateTime)
    requires playerId in s.db.players
    ensures SubmitScore(s, playerId, matchScore, now, Faults(false, false, false, true))
            == Submission(State(SavedDb(s.db, playerId, matchScore, now), s.cache),
                          InternalError(CacheWriteFailed))
  {
    var db := SaveScore(s.db, playerId, matchScore, now, false).value;
    assert FindPlayer(db, playerId) == FindPlayer(s.db, playerId);
  }

  // ---------------------------------------------------------------------------
  // Sequences of submissions by one player

  function Sum(ds: seq<int32>): int {
    if |ds| == 0 then 0 else ds[0] + Sum(ds[1..])
  }

  /** One player submits `ds` in order, every call succeeding. */
  function SubmitAll(s: State, playerId: int32, ds: seq<int32>, now: DateTime): State
    decreases |ds|
  {
    if |ds| == 0 then s
    else SubmitAll(SubmitScore(s, playerId, ds[0], now, NO_FAULTS).state, playerId, ds[1..], now)
  }

  /** Every submission appends its row: the store ends with one row per
      submitted score and the player's stored sum grows by the exact sum. */
  lemma {:induction false} SubmitAllAppendsRows(s: State, playerId: int32, ds: seq<int32>, now: DateTime)
    requires playerId in s.db.players
    ensures SubmitAll(s, playerId, ds, now).db.players == s.db.players
    ensures |SubmitAll(s, playerId, ds, now).db.scores| == |s.db.scores| + |ds|
    ensures SubmitAll(s, playerId, ds, now).db.scores[..|s.db.scores|] == s.db.scores
    ensures ScoreSum(SubmitAll(s, playerId, ds, now).db.scores, playerId) == ScoreSum(s.db.scores, playerId) + Sum(ds)
    decreases |ds|
  {
    if |ds| > 0 {
      SubmitWithoutFaults(s, playerId, ds[0], now);
      var s1 := SubmitScore(s, playerId, ds[0], now, NO_FAULTS).state;
      var row := NewRow(s.db, playerId, ds[0], now);
      assert s1.db.scores == s.db.scores + [row];
      ScoreSumAppend(s.db.scores, row, playerId);
      SubmitAllAppendsRows(s1, playerId, ds[1..], now);
      var fin := SubmitAll(s1, playerId, ds[1..], now).db.scores;
      assert fin[..|s.db.scores|] == fin[..|s1.db.scores|][..|s.db.scores|];
    }
  }

  /** The same run as a chain of committed submissions: a reference for
      `SubmitAll` that does not go through the fault handling. */
  function CommitAll(s: State, playerId: int32, ds: seq<int32>, now: DateTime): State
    requires playerId in s.db.players
    decreases |ds|
  {
    if |ds| == 0 then s
    else CommitAll(Committed(s, playerId, ds[0], now), playerId, ds[1..], now)
  }

  /** A run of fault-free submissions by an existing player is the chain of
      committed submissions. */
  lemma {:induction false} SubmitAllCommits(s: State, playerId: int32, ds: seq<int32>, now: DateTime)
    requires playerId in s.db.players
    ensures SubmitAll(s, playerId, ds, now) == CommitAll(s, playerId, ds, now)
    decreases |ds|
  {
    if |ds| > 0 {
      SubmitWithoutFaults(s, playerId, ds[0], now);
      SubmitAllCommits(Committed(s, playerId, ds[0], now), playerId, ds[1..], now);
    }
  }

  /** Adding the first score with wrap-around and then the rest gives the
      record that one wrap of the whole sum gives. */
  lemma RunningTotal(start: PlayerLeaderboardDto, first: int32, rest: int, whole: int)
    requires whole == first + rest
    ensures var next := start.(totalScore := AddWrapped(start.totalScore, first));
            next.(totalScore := WrapInt32(next.totalScore + rest))
            == start.(totalScore := WrapInt32(start.totalScore + whole))
  {
    AddWrappedThenAdd(start.totalScore, first, rest, whole);
  }

  /** From a cache hit with total T, the stored record ends with total
      T + sum (mod 2^32), every other field kept. */
  lemma WarmSubmissionsAccumulate(s: State, playerId: int32, ds: seq<int32>, now: DateTime,
                                  start: PlayerLeaderboardDto)
    requires playerId in s.db.players
    requires GetString(s.cache, LeaderboardKey(playerId)) == Some(Stored(start))
    ensures GetString(SubmitAll(s, playerId, ds, now).cache, LeaderboardKey(playerId))
            == Some(Stored(start.(totalScore := WrapInt32(start.totalScore + Sum(ds)))))
  {
    SubmitAllCommits(s, playerId, ds, now);
    CommittedWarmAccumulate(s, playerId, ds, now, start);
  }

  /** `WarmSubmissionsAccumulate` for the chain of committed submissions. */
  lemma {:induction false} CommittedWarmAccumulate(s: State, playerId: int32, ds: seq<int32>, now: DateTime,
                                                   start: PlayerLeaderboardDto)
    requires playerId in s.db.players
    requires GetString(s.cache, LeaderboardKey(playerId)) == Some(Stored(start))
    ensures GetString(CommitAll(s, playerId, ds, now).cache, LeaderboardKey(playerId))
            == Some(Stored(start.(totalScore := WrapInt32(start.totalScore + Sum(ds)))))
    decreases |ds|
  {
    if |ds| > 0 {
      CommittedHit(s, playerId, ds[0], now, start);
      CommittedWarmAccumulate(Committed(s, playerId, ds[0], now), playerId, ds[1..], now,
                              start.(totalScore := AddWrapped(start.totalScore, ds[0])));
      RunningTotal(start, ds[0], Sum(ds[1..]), Sum(ds));
    } else {
      assert WrapInt32(start.totalScore + Sum(ds)) == start.totalScore;
    }
  }

  /** One fault-free submission on a hit: the record grows by the score and
      the players are as they were. */
  lemma CommittedHit(s: State, playerId: int32, matchScore: int32, now: DateTime, start: PlayerLeaderboardDto)
    requires playerId in s.db.players
    requires GetString(s.cache, LeaderboardKey(playerId)) == Some(Stored(start))
    ensures var r := Committed(s, playerId, matchScore, now);
            && r.db.players == s.db.players
            && GetString(r.cache, LeaderboardKey(playerId))
               == Some(Stored(start.(totalScore := AddWrapped(start.totalScore, matchScore))))
  {
    assert MergedRecord(s, playerId, matchScore) == start.(totalScore := AddWrapped(start.totalScore, matchScore));
  }

  /** From a cold cache, the first submission creates the record from the
      player row and the rest accumulate: the total is the sum of the
      submitted scores (mod 2^32), exactly the sum when that fits in an int. */
  lemma ColdSubmissionsAccumulate(s: State, playerId: int32, ds: seq<int32>, now: DateTime)
    requires playerId in s.db.players
    requires IsNullOrEmpty(GetString(s.cache, LeaderboardKey(playerId)))
    requires |ds| > 0
    ensures var p := s.db.players[playerId];
            GetString(SubmitAll(s, playerId, ds, now).cache, LeaderboardKey(playerId))
            == Some(Stored(PlayerLeaderboardDto(playerId, WrapInt32(Sum(ds)), p.registrationDate,
                                                p.playerLevel, p.trophyCount)))
    ensures InInt32Range(Sum(ds)) ==>
              GetString(SubmitAll(s, playerId, ds, now).cache, LeaderboardKey(playerId)).value.dto.totalScore
              == Sum(ds)
  {
    SubmitAllCommits(s, playerId, ds, now);
    CommittedColdAccumulate(s, playerId, ds, now);
  }

  /** `ColdSubmissionsAccumulate` for the chain of committed submissions. */
  lemma CommittedColdAccumulate(s: State, playerId: int32, ds: seq<int32>, now: DateTime)
    requires playerId in s.db.players
    requires IsNullOrEmpty(GetString(s.cache, LeaderboardKey(playerId)))
    requires |ds| > 0
    ensures var p := s.db.players[playerId];
            GetString(CommitAll(s, playerId, ds, now).cache, LeaderboardKey(playerId))
            == Some(Stored(PlayerLeaderboardDto(playerId, WrapInt32(Sum(ds)), p.registrationDate,
                                                p.playerLevel, p.trophyCount)))
  {
    var p := s.db.players[playerId];
    var first := PlayerLeaderboardDto(playerId, ds[0], p.registrationDate, p.playerLevel, p.trophyCount);
    CommittedMiss(s, playerId, ds[0], now);
    CommittedWarmAccumulate(Committed(s, playerId, ds[0], now), playerId, ds[1..], now, first);
    CongruentWraps(first.totalScore + Sum(ds[1..]), Sum(ds));
  }

  /** One fault-free submission on a miss: the fresh record is written and the
      players are as they were. */
  lemma CommittedMiss(s: State, playerId: int32, matchScore: int32, now: DateTime)
    requires playerId in s.db.players
    requires IsNullOrEmpty(GetString(s.cache, LeaderboardKey(playerId)))
    ensures var p := s.db.players[playerId];
            var r := Committed(s, playerId, matchScore, now);
            && r.db.players == s.db.players
            && GetString(r.cache, LeaderboardKey(playerId))
               == Some(Stored(PlayerLeaderboardDto(playerId, matchScore, p.registrationDate,
                                                   p.playerLevel, p.trophyCount)))
  {
  }

  /** Equal integers wrap to the same int32. */
  lemma CongruentWraps(x: int, y: int)
    requires x == y
    ensures WrapInt32(x) == WrapInt32(y)
  {
  }

  // ---------------------------------------------------------------------------
  // Agreement between the cached total and the stored scores

  /** The player's cached total is the stored sum wrapped to 32 bits, or
      there is no record and the stored sum is zero. */
  predicate InSync(s: State, playerId: int32) {
    var v := GetString(s.cache, LeaderboardKey(playerId));
    if IsNullOrEmpty(v) then ScoreSum(s.db.scores, playerId) == 0
    else v.value.dto.totalScore == WrapInt32(ScoreSum(s.db.scores, playerId))
  }

  /** A successful submission keeps every player in sync that was in sync. */
  lemma SubmitPreservesSync(s: State, playerId: int32, matchScore: int32, now: DateTime, other: int32)
    requires playerId in s.db.players
    requires InSync(s, other)
    ensures InSync(SubmitScore(s, playerId, matchScore, now, NO_FAULTS).state, other)
  {
    SubmitWithoutFaults(s, playerId, matchScore, now);
    CommittedPreservesSync(s, playerId, matchScore, now, other);
  }

  /** `SubmitPreservesSync` for the committed state, by cases: another
      player's key, a miss, a hit. */
  lemma CommittedPreservesSync(s: State, playerId: int32, matchScore: int32, now: DateTime, other: int32)
    requires playerId in s.db.players
    requires InSync(s, other)
    ensures InSync(Committed(s, playerId, matchScore, now), other)
  {
    var v := GetString(s.cache, LeaderboardKey(playerId));
    if other != playerId {
      CommittedKeepsOthersSync(s, playerId, matchScore, now, other);
    } else if IsNullOrEmpty(v) {
      CommittedMissKeepsSync(s, playerId, matchScore, now);
    } else {
      CommittedHitKeepsSync(s, playerId, matchScore, now);
    }
  }

  /** The stored sum after a committed submission. */
  lemma CommittedSum(s: State, playerId: int32, matchScore: int32, now: DateTime, other: int32)
    requires playerId in s.db.players
    ensures ScoreSum(Committed(s, playerId, matchScore, now).db.scores, other)
            == ScoreSum(s.db.scores, other) + (if other == playerId then matchScore as int else 0)
  {
    var r := Committed(s, playerId, matchScore, now);
    assert r.db.scores == s.db.scores + [NewRow(s.db, playerId, matchScore, now)];
    ScoreSumAppend(s.db.scores, NewRow(s.db, playerId, matchScore, now), other);
  }

  /** Another player's key and stored sum are untouched. */
  lemma CommittedKeepsOthersSync(s: State, playerId: int32, matchScore: int32, now: DateTime, other: int32)
    requires playerId in s.db.players
    requires other != playerId
    requires InSync(s, other)
    ensures InSync(Committed(s, playerId, matchScore, now), other)
  {
    var r := Committed(s, playerId, matchScore, now);
    CommittedSum(s, playerId, matchScore, now, other);
    assert GetString(r.cache, LeaderboardKey(other)) == GetString(s.cache, LeaderboardKey(other)) by {
      if LeaderboardKey(other) == LeaderboardKey(playerId) {
        LeaderboardKeyInjective(other, playerId);
      }
    }
  }

  /** On a miss in sync the stored sum was zero, so the fresh total is the
      new sum. */
  lemma CommittedMissKeepsSync(s: State, playerId: int32, matchScore: int32, now: DateTime)
    requires playerId in s.db.players
    requires IsNullOrEmpty(GetString(s.cache, LeaderboardKey(playerId)))
    requires InSync(s, playerId)
    ensures InSync(Committed(s, playerId, matchScore, now), playerId)
  {
    var r := Committed(s, playerId, matchScore, now);
    CommittedSum(s, playerId, matchScore, now, playerId);
    CommittedMiss(s, playerId, matchScore, now);
    assert ScoreSum(r.db.scores, playerId) == matchScore;
  }

  /** On a hit in sync, one unchecked addition keeps the total equal to the
      wrapped sum. */
  lemma CommittedHitKeepsSync(s: State, playerId: int32, matchScore: int32, now: DateTime)
    requires playerId in s.db.players
    requires !IsNullOrEmpty(GetString(s.cache, LeaderboardKey(playerId)))
    requires InSync(s, playerId)
    ensures InSync(Committed(s, playerId, matchScore, now), playerId)
  {
    var start := GetString(s.cache, LeaderboardKey(playerId)).value.dto;
    var h := ScoreSum(s.db.scores, playerId);
    CommittedSum(s, playerId, matchScore, now, playerId);
    CommittedHit(s, playerId, matchScore, now, start);
    WrappedStep(start.totalScore, h, matchScore);
  }

  /** On a miss the new record starts from the submitted score alone, so a
      record lost from the cache comes back without the earlier scores: the
      player is in sync afterwards exactly when those scores sum to zero
      modulo 2^32. */
  lemma MissIgnoresEarlierScores(s: State, playerId: int32, matchScore: int32, now: DateTime)
    requires playerId in s.db.players
    requires IsNullOrEmpty(GetString(s.cache, LeaderboardKey(playerId)))
    ensures var r := SubmitScore(s, playerId, matchScore, now, NO_FAULTS).state;
            && GetString(r.cache, LeaderboardKey(playerId)).Some?
            && GetString(r.cache, LeaderboardKey(playerId)).value.Stored?
            && GetString(r.cache, LeaderboardKey(playerId)).value.dto.totalScore == matchScore
            && ScoreSum(r.db.scores, playerId) == ScoreSum(s.db.scores, playerId) + matchScore
            && (InSync(r, playerId) <==> ScoreSum(s.db.scores, playerId) % TWO_TO_THE_32 == 0)
  {
    SubmitWithoutFaults(s, playerId, matchScore, now);
    CommittedMissIgnoresEarlierScores(s, playerId, matchScore, now);
  }

  /** `MissIgnoresEarlierScores` for the committed state. */
  lemma CommittedMissIgnoresEarlierScores(s: State, playerId: int32, matchScore: int32, now: DateTime)
    requires playerId in s.db.players
    requires IsNullOrEmpty(GetString(s.cache, LeaderboardKey(playerId)))
    ensures var r := Committed(s, playerId, matchScore, now);
            && GetString(r.cache, LeaderboardKey(playerId)) == Some(Stored(MergedRecord(s, playerId, matchScore)))
            && MergedRecord(s, playerId, matchScore).totalScore == matchScore
            && ScoreSum(r.db.scores, playerId) == ScoreSum(s.db.scores, playerId) + matchScore
            && (InSync(r, playerId) <==> ScoreSum(s.db.scores, playerId) % TWO_TO_THE_32 == 0)
  {
    var h := ScoreSum(s.db.scores, playerId);
    var r := Committed(s, playerId, matchScore, now);
    var written := MergedRecord(s, playerId, matchScore);
    assert written.totalScore == matchScore;
    assert ScoreSum(r.db.scores, playerId) == h + matchScore by {
      assert r.db.scores == s.db.scores + [NewRow(s.db, playerId, matchScore, now)];
      ScoreSumAppend(s.db.scores, NewRow(s.db, playerId, matchScore, now), playerId);
    }
    assert GetString(r.cache, LeaderboardKey(playerId)) == Some(Stored(written));
    assert InSync(r, playerId) <==> matchScore == WrapInt32(h + matchScore);
    assert matchScore == WrapInt32(h + matchScore) <==> h % TWO_TO_THE_32 == 0 by {
      WrapShiftFixed(h, matchScore);
    }
  }

  /** On a miss, the written record is the player's fresh record. */
  lemma MissWritesFreshRecord(s: State, playerId: int32, matchScore: int32, now: DateTime)
    requires playerId in s.db.players
    requires IsNullOrEmpty(GetString(s.cache, LeaderboardKey(playerId)))
    ensures var p := s.db.players[playerId];
            GetString(SubmitScore(s, playerId, matchScore, now, NO_FAULTS).state.cache, LeaderboardKey(playerId))
            == Some(Stored(PlayerLeaderboardDto(playerId, matchScore, p.registrationDate,
                                                p.playerLevel, p.trophyCount)))
  {
    SubmitWithoutFaults(s, playerId, matchScore, now);
    CommittedMiss(s, playerId, matchScore, now);
  }

  /** The stored sum of the submitting player grows by the submitted score;
      every other player's sum is unchanged. */
  lemma SuccessfulSubmitAddsToSum(s: State, playerId: int32, matchScore: int32, now: DateTime)
    requires playerId in s.db.players
    ensures forall q :: ScoreSum(SubmitScore(s, playerId, matchScore, now, NO_FAULTS).state.db.scores, q)
                        == ScoreSum(s.db.scores, q) + (if q == playerId then matchScore as int else 0)
  {
    SubmitWithoutFaults(s, playerId, matchScore, now);
    var r := SubmitScore(s, playerId, matchScore, now, NO_FAULTS).state;
    var row := NewRow(s.db, playerId, matchScore, now);
    assert r.db.scores == s.db.scores + [row];
    forall q
      ensures ScoreSum(r.db.scores, q) == ScoreSum(s.db.scores, q) + (if q == playerId then matchScore as int else 0)
    {
      ScoreSumAppend(s.db.scores, row, q);
    }
  }

  /** A cache write that throws after the row was saved: the request reports
      an error, the row stays, and a player that was in sync is no longer in
      sync unless the score was zero. */
  lemma CacheWriteFailureLeavesRow(s: State, playerId: int32, matchScore: int32, now: DateTime)
    requires playerId in s.db.players
    requires InSync(s, playerId)
    ensures var r := SubmitScore(s, playerId, matchScore, now, Faults(false, false, false, true));
            && r.response == InternalError(CacheWriteFailed)
            && AppendedOne(s.db, r.state.db, playerId, matchScore, now)
            && (InSync(r.state, playerId) <==> matchScore == 0)
  {
    SubmitWithFailedWrite(s, playerId, matchScore, now);
    UncachedSaveBreaksSync(s, playerId, matchScore, now);
  }

  /** The row saved without touching the cache: the stored sum moves by the
      score while the cached total stays. */
  lemma UncachedSaveBreaksSync(s: State, playerId: int32, matchScore: int32, now: DateTime)
    requires InSync(s, playerId)
    ensures var r := State(SavedDb(s.db, playerId, matchScore, now), s.cache);
            && AppendedOne(s.db, r.db, playerId, matchScore, now)
            && (InSync(r, playerId) <==> matchScore == 0)
  {
    var r := State(SavedDb(s.db, playerId, matchScore, now), s.cache);
    var h := ScoreSum(s.db.scores, playerId);
    var row := NewRow(s.db, playerId, matchScore, now);
    assert r.db.scores[..|s.db.scores|] == s.db.scores;
    ScoreSumAppend(s.db.scores, row, playerId);
    var v := GetString(s.cache, LeaderboardKey(playerId));
    if !IsNullOrEmpty(v) && InSync(r, playerId) {
      assert WrapInt32(h) == WrapInt32(h + matchScore);
      WrapEqualCongruent(h + matchScore, h);
      assert (h + matchScore - h) == matchScore;
    }
  }

  /** The key a submission writes lies under the scanned prefix, so the
      written record is on the leaderboard read from the state the submission
      leaves, whatever order `KEYS` returns the keys in. */
  lemma SubmittedRecordIsListed(s: State, playerId: int32, matchScore: int32, now: DateTime,
                                board: seq<PlayerLeaderboardDto>)
    requires playerId in s.db.players
    requires var r := SubmitScore(s, playerId, matchScore, now, NO_FAULTS).state;
             forall d :: multiset(board)[d] == |KeysHolding(r.cache, d)|
    ensures var r := SubmitScore(s, playerId, matchScore, now, NO_FAULTS).state;
            && LeaderboardKey(playerId) in ScanKeys(r.cache)
            && r.cache[LeaderboardKey(playerId)].dto in board
  {
    SubmitWithoutFaults(s, playerId, matchScore, now);
    var r := SubmitScore(s, playerId, matchScore, now, NO_FAULTS).state;
    BoardMatchesCache(r.cache, board);
  }
}
