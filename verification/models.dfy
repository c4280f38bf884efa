/**
 The records the leaderboard core reads and writes: the `Player` and `Score`
 rows of the relational store and the per-player aggregate
 `PlayerLeaderboardDto` kept in the cache. Every C# `int` field is an int32;
 a `DateTime` is represented by its tick count, the only part of it that
 `DateTime.CompareTo` looks at.
 */
module Models {
  import opened BoundedInts

  type DateTime = int

  /** A registered player. The `Scores` navigation collection is not a field
      here: the scores live in the store's own sequence of rows. */
  datatype Player = Player(
    playerId: int32,
    username: string,
    passwordHash: string,
    deviceId: string,
    registrationDate: DateTime,
    playerLevel: int32,
    trophyCount: int32)

  /** One submitted match result. */
  datatype Score = Score(
    scoreId: int,
    playerId: int32,
    matchScore: int32,
    scoreTime: DateTime)

  /** The cached per-player aggregate that the leaderboard ranks. */
  datatype PlayerLeaderboardDto = PlayerLeaderboardDto(
    playerId: int32,
    totalScore: int32,
    registrationDate: DateTime,
    playerLevel: int32,
    trophyCount: int32)
}
