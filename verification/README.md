# Leaderboard cache and ranking — a Dafny model

LeaderboardAPI keeps the running total of every player's match scores in Redis and ranks it. This project models the two sequential pieces of logic at its core:

- **Score submission** (`GameController.SubmitScore`). It appends a `Score` row to the PostgreSQL store and saves it. It then does a read-modify-write on the cache entry `leaderboard:{playerId}`. On a hit, the new score is added to the stored `TotalScore`. On a miss, a fresh `PlayerLeaderboardDto` is built from the `Player` row, with `TotalScore` set to the new score.
- **The leaderboard** (`RedisCacheService`). `GetLeaderboardAsync` collects every non-empty record stored under the `leaderboard:` prefix. It sorts them by `TotalScore` descending, then `RegistrationDate` ascending, then `PlayerLevel` descending, then `TrophyCount` descending. The module also covers the bulk writer `CacheLeaderboardAsync` and the `GetStringAsync`/`SetStringAsync` helpers.

Modelling choices:

- The cache is a `map<string, CacheValue>`. A value is either the empty string (`Blank`) or a record (`Stored`). A key missing from the map reads as Redis nil.
- The store (`Store.Db`) holds the `Players` table as a map keyed by primary key and the `Scores` table as a sequence of rows.
- Every C# `int` is an `int32`. The unchecked `TotalScore += newScore` wraps around modulo 2^32 (`BoundedInts.AddWrapped`).
- A `DateTime` is its tick count, which is all that `DateTime.CompareTo` compares.
- The foreign key from `Scores.PlayerId` to `Players` (Migrations/20241006182754_AddDeviceIdToPlayer.cs:75-81) is enforced when a score is saved. A score for an unknown player therefore fails at the save step. The null dereference on the miss path (Controllers/GameController.cs:63) can then never happen in a sequential run. It is still modelled as an outcome, and `GameController.SubmitScore` proves that it does not occur.
- Every external call can throw. A `Faults` value says which call throws: the save, the cache read, the player lookup or the cache write. Nothing is retried or undone.
- The clock value (`DateTime.UtcNow`) is a parameter.
- Redis returns the keys of `KEYS leaderboard:*` in an unspecified order. `RedisCacheService.GetLeaderboard` is a method that picks the next key nondeterministically. Its contract characterises the result for every such order.

Files: `bounded_ints.dfy` (32-bit wrap-around), `decimal.dfy` (decimal rendering of an int and its parser), `wrappers.dfy` (Option/Result), `models.dfy` (Player, Score, PlayerLeaderboardDto), `ranking.dfy` (the comparer and the sort), `store.dfy` (the relational store), `redis_cache.dfy` (RedisCacheService), `game_controller.dfy` (GameController and the properties of sequences of submissions).

Facts about the code that the model keeps:

- A submission for an unknown player fails at `SaveChangesAsync`, on the violation of the foreign key `FK_Scores_Players_PlayerId`. The request ends with a generic server error.
- Match scores are not validated. Any `int` is accepted, so negative scores and negative totals occur.
- A failed cache step leaves the saved row in place and returns a server error. An empty cache yields an empty leaderboard.

## Model

| member | source | states |
|---|---|---|
| BoundedInts.WrapInt32 | Data/DTOs/PlayerLeaderboardDto.cs:6 | the int32 that a mathematical integer wraps to is congruent to it modulo 2^32 and equals it when it is in range |
| BoundedInts.AddWrapped | Controllers/GameController.cs:55 | unchecked `+=` on int: the result is congruent to the exact sum modulo 2^32, and is the exact sum when that fits |
| BoundedInts.WrapOfWrappedSum | Controllers/GameController.cs:55 | wrapping after each addition gives the same int32 as one wrap of the exact total, which is why repeated unchecked additions accumulate correctly modulo 2^32 |
| Decimal.Format | Controllers/GameController.cs:69 | an int is rendered in the key as C# interpolation renders it: a minus sign exactly when it is negative, then decimal digits with no leading zero, and zero as "0" |
| Decimal.ParseFormat | Controllers/GameController.cs:69 | the decimal rendering of an int used in the cache key reads back as the same int |
| RedisCacheService.LeaderboardKey | Controllers/GameController.cs:69 | the key written for a player lies under the `leaderboard:` prefix that the leaderboard scan uses |
| RedisCacheService.LeaderboardKeyInjective | Controllers/GameController.cs:47 | distinct player ids give distinct cache keys |
| RedisCacheService.GetString | Services/RedisCacheService.cs:54-57 | a get returns a value exactly when the key is set, and then it is the value stored under that key. A missing key reads as nil |
| RedisCacheService.IsNullOrEmpty | Services/RedisCacheService.cs:35 | a value read from the cache counts as null or empty exactly when no record came back: the key was nil or held the empty string |
| RedisCacheService.SetString | Services/RedisCacheService.cs:59-62 | after a set, a get of that key returns the value; every other key reads as before |
| RedisCacheService.SetStringOverwrites | Services/RedisCacheService.cs:59-62 | a second set of the same key overwrites the first |
| RedisCacheService.CacheLeaderboard | Services/RedisCacheService.cs:17-23 | afterwards each listed player's key holds the last record listed for that player, keys the loop does not write are untouched, and the key set grows by exactly the written keys |
| RedisCacheService.ScanKeys | Services/RedisCacheService.cs:27 | `KEYS leaderboard:*` returns exactly the cache's keys that start with `leaderboard:`, so every player's key that is set is among them |
| RedisCacheService.GetLeaderboard | Services/RedisCacheService.cs:25-51 | the board is ranked, and each record appears exactly as often as there are `leaderboard:` keys storing it: a permutation of the non-empty values under the prefix, with blank values and other keys excluded |
| RedisCacheService.BoardMatchesCache | Services/RedisCacheService.cs:27-40 | every board entry is stored under some prefixed key, and every record stored under a prefixed key is on the board |
| Ranking.Compare | Services/RedisCacheService.cs:43-48 | the comparer yields −1, 0 or 1. It is 0 exactly when all four keys tie, and negative exactly when the first record's key tuple (−TotalScore, RegistrationDate, −PlayerLevel, −TrophyCount) is lexicographically smaller |
| Ranking.CompareMatchesRankKey | Services/RedisCacheService.cs:43-48 | the LINQ comparer chain agrees with the ascending lexicographic order on (−TotalScore, RegistrationDate, −PlayerLevel, −TrophyCount), flips sign when its arguments swap, and ties exactly when all four keys agree |
| Ranking.RankingIsTotalPreorder | Services/RedisCacheService.cs:43-48 | the ranking relation is reflexive, transitive and total |
| Ranking.AdjacentOrderIsRanked | Services/RedisCacheService.cs:43-48 | a list whose adjacent pairs are in ranking order is ranked throughout |
| Ranking.SortByRank | Services/RedisCacheService.cs:43-48 | the sort returns a ranked permutation of its input |
| Ranking.RankedPositions | Services/RedisCacheService.cs:44-47 | on a ranked board, a higher total comes first. With equal totals, the earlier registration comes first whatever the level and trophies. With equal total and date, the higher level comes first. With equal total, date and level, more trophies come first |
| Store.FindPlayer | Controllers/GameController.cs:50 | the lookup finds a row exactly when the id is a player's primary key, and then it returns the row stored under that key |
| Store.SaveScore | Controllers/GameController.cs:37-45 | a save succeeds exactly when the database is reachable and the player exists. On success it appends one row with the player id, match score and time and changes nothing else. Otherwise it fails, with a foreign-key violation when the database was reachable |
| GameController.MergeScore | Controllers/GameController.cs:47-67 | on a hit the stored record keeps its id, date, level and trophies, and its total grows by the new score modulo 2^32. On a miss with a player row, a fresh record has the caller's id, total equal to the new score, and the player's date, level and trophies. On a miss without a player row it is a null dereference |
| GameController.SubmitScore | Controllers/GameController.cs:31-72 | the row is appended before any cache step and stays whatever fails afterwards. Only the player's own key can change, and only on success. The request succeeds exactly when no call throws and the player exists. The null dereference never occurs. A successful write stores the merged record |
| GameController.SubmitWithoutFaults | Controllers/GameController.cs:37-69 | when no call throws and the player exists, a submission appends the row with the next id, writes the merged record under the player's key, changes nothing else, and returns Ok |
| GameController.SubmitWithFailedWrite | Controllers/GameController.cs:37-69 | when only `SetStringAsync` throws, the row is appended, the cache is left as it was, and the request fails with the write error |
| GameController.GetLeaderboard | Controllers/GameController.cs:77-84 | the endpoint returns the ranked board of exactly the non-empty records under the prefix |
| GameController.SubmitAllCommits | Controllers/GameController.cs:37-69 | a run of fault-free submissions by an existing player equals the chain of committed submissions, each appending its row and writing its merged record |
| GameController.SubmitAllAppendsRows | Controllers/GameController.cs:37-45 | a run of submissions appends one row per score, keeps the earlier rows, and raises the player's stored sum by the sum of the submitted scores |
| GameController.SuccessfulSubmitAddsToSum | Controllers/GameController.cs:37-45 | a successful submission adds its score to its own player's stored sum and to no other player's |
| GameController.WarmSubmissionsAccumulate | Controllers/GameController.cs:52-56 | starting from a hit with total T, submissions d1..dn leave the record with total T + d1 + … + dn modulo 2^32, every other field kept |
| GameController.ColdSubmissionsAccumulate | Controllers/GameController.cs:47-69 | starting from a cold key, submissions d1..dn leave a record built from the player row with total d1 + … + dn modulo 2^32, exactly that sum when it fits in an int |
| GameController.MissWritesFreshRecord | Controllers/GameController.cs:57-69 | a successful submission on a miss writes the fresh record built from the player row |
| GameController.MissIgnoresEarlierScores | Controllers/GameController.cs:57-67 | on a miss the new total is the submitted score alone, while the stored sum also holds the earlier scores. The cache agrees with the store afterwards exactly when the earlier scores sum to 0 modulo 2^32 |
| GameController.SubmitPreservesSync | Controllers/GameController.cs:44-69 | a successful submission keeps every player whose cached total matched the stored sum (modulo 2^32) in that state |
| GameController.CacheWriteFailureLeavesRow | Controllers/GameController.cs:44-69 | when the cache write throws, the request reports the error, the row stays saved, and the player's cache no longer matches the store unless the score was 0 |
| GameController.SubmittedRecordIsListed | Controllers/GameController.cs:69 | the key written by a submission is found by the prefix scan, so the written record appears on the leaderboard read from the state the submission leaves, whatever order `KEYS` returns the keys in |

## Left out

- Ranking.SortByRank: states a ranked permutation but not stability. LINQ's `OrderBy` is stable, but the `KEYS` reply it sorts comes in an unspecified order. So the relative order of records with all four keys equal is not determined by the source either.
- Retries, rollback and rebuild from the store are not modelled as behaviour, because the code has none of them.
- Concurrency is not modelled, and the model claims no atomicity. The lost update between two interleaved submissions for one player comes from interleaved I/O, and the model is sequential.
- Redis transport, the execution of `KEYS` and async/await are left out. The cache is a map and the scan is a prefix filter over its keys. The `KEYS leaderboard:*` glob has only the trailing `*` as a wildcard, so it is a prefix match.
- Newtonsoft JSON serialisation is left out, since it is a foreign library. Records are stored as themselves. A stored string that is not valid JSON, or the JSON `null`, would make deserialisation throw or yield null. The model does not represent such values.
- A Redis `SET` that times out is modelled as not applied. The server may in fact have applied it, and that case is not represented.
- Exceptions in `GetLeaderboardAsync` and `CacheLeaderboardAsync` are left out. The first only reads, so a throw changes nothing. The second is not called by the controllers shown.
- Parsing the player id from the JWT `NameIdentifier` claim (`int.Parse`) is left out: the authenticated id is a parameter.
- `Controllers/AuthController.cs` and `Services/TokenService.cs` are left out (BCrypt hashing, JWT signing and configuration are foreign calls). So are `Data/LeaderboardContext.cs` and the migration as schema: only the foreign key is used.
- `DateTime.UtcNow` is a parameter. Real clock values and `DateTime.Kind` are left out.
- The PostgreSQL identity sequence is modelled as a counter in the store. The sequence value that a failed insert consumes is not modelled. `ScoreId` is unbounded rather than int32.
- `int` formatting in the key assumes the culture's negative sign is `-`.
- `Username`, `PasswordHash` and `DeviceId` are carried in `Player` but not used by the core. The `Player`/`Scores` navigation properties are represented by the store's own tables.
