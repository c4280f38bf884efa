/**
 The relational store behind `LeaderboardContext`: the `Players` table, keyed
 by its primary key, and the append-only `Scores` table. The schema's foreign
 key from `Scores.PlayerId` to `Players.PlayerId` is enforced when a score is
 saved; a failed save leaves the store as it was.
 */
module Store {
  import opened BoundedInts
  import opened Wrappers
  import opened Models

  datatype Db = Db(
    players: map<int32, Player>,
    scores: seq<Score>,
    nextScoreId: int)

  /** Why `SaveChangesAsync` throws. */
  datatype SaveError =
    | StoreUnavailable      // the database could not be reached
    | ForeignKeyViolation   // the score names a player that does not exist

  /** `Players.FindAsync(id)`: the row with that primary key, or null. */
  function FindPlayer(db: Db, id: int32): (r: Option<Player>)
    ensures r.Some? <==> id in db.players
    ensures id in db.players ==> r == Some(db.players[id])
  {
    if id in db.players then Some(db.players[id]) else None
  }

  /** `Scores.Add` followed by `SaveChangesAsync`: appends one row carrying
      the next identity value, or fails and changes nothing. `unavailable`
      stands for a database that cannot be reached. */
  function SaveScore(db: Db, playerId: int32, matchScore: int32, now: DateTime, unavailable: bool)
    : (r: Result<Db, SaveError>)
    ensures r.Success? <==> !unavailable && playerId in db.players
    ensures r.Failure? && !unavailable ==> r.error == ForeignKeyViolation
    ensures r.Success? ==> && |r.value.scores| == |db.scores| + 1
                           && r.value.scores[..|db.scores|] == db.scores
                           && r.value.scores[|db.scores|].playerId == playerId
                           && r.value.scores[|db.scores|].matchScore == matchScore
                           && r.value.scores[|db.scores|].scoreTime == now
                           && r.value.players == db.players
  {
    if unavailable then
      Failure(StoreUnavailable)
    else if playerId !in db.players then
      Failure(ForeignKeyViolation)
    else
      Success(db.(scores := db.scores + [Score(db.nextScoreId, playerId, matchScore, now)],
                  nextScoreId := db.nextScoreId + 1))
  }

  /** The exact (unbounded) sum of the match scores stored for a player: what
      an aggregate query over `Scores` would compute. */
  function ScoreSum(scores: seq<Score>, id: int32): int
  {
    if |scores| == 0 then 0
    else ScoreSum(scores[..|scores| - 1], id)
         + (if scores[|scores| - 1].playerId == id then scores[|scores| - 1].matchScore as int else 0)
  }

  /** Appending a row adds its score to its own player's sum and to no one else's. */
  lemma ScoreSumAppend(scores: seq<Score>, row: Score, id: int32)
    ensures ScoreSum(scores + [row], id)
            == ScoreSum(scores, id) + (if row.playerId == id then row.matchScore as int else 0)
  {
    assert (scores + [row])[..|scores|] == scores;
  }
}
