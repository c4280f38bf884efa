/**
 `RedisCacheService`: the key-value cache holding one serialised
 `PlayerLeaderboardDto` per player under the key `leaderboard:{PlayerId}`.
 The cache is a map from keys to stored values. A stored value is either the
 empty string or a record; JSON serialisation is taken to be the identity, so
 a record is stored as itself. A key absent from the map reads as Redis nil.
 */
module RedisCacheService {
  import opened BoundedInts
  import opened Wrappers
  import opened Models
  import Decimal
  import Ranking

  datatype CacheValue = Blank | Stored(dto: PlayerLeaderboardDto)

  type Cache = map<string, CacheValue>

  const KEY_PREFIX: string := "leaderboard:"

  predicate HasPrefix(k: string, p: string) {
    |p| <= |k| && k[..|p|] == p
  }

  /** `$"leaderboard:{playerId}"`. */
  function LeaderboardKey(playerId: int32): (k: string)
    ensures HasPrefix(k, KEY_PREFIX)
    ensures |k| > |KEY_PREFIX|
  {
    KEY_PREFIX + Decimal.Format(playerId)
  }

  /** Distinct players never share a cache key. */
  lemma LeaderboardKeyInjective(a: int32, b: int32)
    requires LeaderboardKey(a) == LeaderboardKey(b)
    ensures a == b
  {
    var n := |KEY_PREFIX|;
    assert LeaderboardKey(a)[n..] == Decimal.Format(a);
    assert LeaderboardKey(b)[n..] == Decimal.Format(b);
    Decimal.FormatInjective(a, b);
  }

  /** `string.IsNullOrEmpty` applied to what `StringGetAsync` returned:
      true unless a record came back. */
  predicate IsNullOrEmpty(v: Option<CacheValue>)
    ensures IsNullOrEmpty(v) <==> !(v.Some? && v.value.Stored?)
  {
    v.None? || v.value.Blank?
  }

  /** `GetStringAsync(key)`: the stored value, or nil for a missing key. */
  function GetString(c: Cache, key: string): (r: Option<CacheValue>)
    ensures r.Some? <==> key in c
    ensures key in c ==> r.value == c[key]
  {
    if key in c then Some(c[key]) else None
  }

  /** `SetStringAsync(key, value)`: a later get of `key` returns `value`;
      every other key reads as before. */
  function SetString(c: Cache, key: string, value: CacheValue): (c': Cache)
    ensures GetString(c', key) == Some(value)
    ensures forall k | k != key :: GetString(c', k) == GetString(c, k)
    ensures c'.Keys == c.Keys + {key}
  {
    c[key := value]
  }

  /** A second set of the same key overwrites the first. */
  lemma SetStringOverwrites(c: Cache, key: string, v1: CacheValue, v2: CacheValue)
    ensures SetString(SetString(c, key, v1), key, v2) == SetString(c, key, v2)
  {
  }

  /** The keys `CacheLeaderboardAsync` writes for a list of records. */
  function WrittenKeys(board: seq<PlayerLeaderboardDto>): set<string> {
    set d | d in board :: LeaderboardKey(d.playerId)
  }

  /** No later entry of `board` belongs to the same player as entry `i`. */
  predicate IsLastFor(board: seq<PlayerLeaderboardDto>, i: int)
    requires 0 <= i < |board|
  {
    forall j | i < j < |board| :: board[j].playerId != board[i].playerId
  }

  /** `CacheLeaderboardAsync`: one set per record, in list order. Afterwards
      each player's key holds the last record given for that player, and keys
      the loop does not write are untouched. */
  function CacheLeaderboard(c: Cache, board: seq<PlayerLeaderboardDto>): (c': Cache)
    ensures forall k | k !in WrittenKeys(board) :: GetString(c', k) == GetString(c, k)
    ensures forall i | 0 <= i < |board| && IsLastFor(board, i) ::
              GetString(c', LeaderboardKey(board[i].playerId)) == Some(Stored(board[i]))
    ensures c'.Keys == c.Keys + WrittenKeys(board)
    decreases |board|
  {
    if |board| == 0 then
      c
    else
      var head := board[0];
      var c1 := SetString(c, LeaderboardKey(head.playerId), Stored(head));
      var r := CacheLeaderboard(c1, board[1..]);
      WrittenKeysCons(board);
      forall i | 0 <= i < |board| && IsLastFor(board, i)
        ensures GetString(r, LeaderboardKey(board[i].playerId)) == Some(Stored(board[i]))
      {
        if i == 0 {
          LastHeadNotRewritten(board);
        } else {
          LastForTail(board, i);
        }
      }
      r
  }

  lemma WrittenKeysCons(board: seq<PlayerLeaderboardDto>)
    requires |board| > 0
    ensures WrittenKeys(board) == {LeaderboardKey(board[0].playerId)} + WrittenKeys(board[1..])
  {
    assert forall d | d in board :: d == board[0] || d in board[1..];
    assert forall d | d in board[1..] :: d in board;
  }

  lemma LastForTail(board: seq<PlayerLeaderboardDto>, i: int)
    requires 0 < i < |board| && IsLastFor(board, i)
    ensures board[1..][i - 1] == board[i]
    ensures IsLastFor(board[1..], i - 1)
  {
    var tail := board[1..];
    forall j | i - 1 < j < |tail|
      ensures tail[j].playerId != tail[i - 1].playerId
    {
      assert tail[j] == board[j + 1];
    }
  }

  /** If the head is the last record for its player, no later record of the
      list writes the head's key. */
  lemma LastHeadNotRewritten(board: seq<PlayerLeaderboardDto>)
    requires |board| > 0 && IsLastFor(board, 0)
    ensures LeaderboardKey(board[0].playerId) !in WrittenKeys(board[1..])
  {
    var key := LeaderboardKey(board[0].playerId);
    var tail := board[1..];
    if key in WrittenKeys(tail) {
      var d :| d in tail && LeaderboardKey(d.playerId) == key;
      var j :| 0 <= j < |tail| && tail[j] == d;
      assert board[j + 1] == d;
      LeaderboardKeyInjective(d.playerId, board[0].playerId);
      assert false;
    }
  }

  /** The keys `KEYS leaderboard:*` returns: exactly the keys of the cache
      under the prefix, so in particular every player's leaderboard key that
      is set. */
  function ScanKeys(c: Cache): (keys: set<string>)
    ensures keys <= c.Keys
    ensures forall k | k in keys :: HasPrefix(k, KEY_PREFIX)
    ensures forall k | k in c && HasPrefix(k, KEY_PREFIX) :: k in keys
    ensures forall id: int32 | LeaderboardKey(id) in c :: LeaderboardKey(id) in keys
  {
    set k | k in c && HasPrefix(k, KEY_PREFIX)
  }

  /** Those of `keys` whose stored value is the record `d`. */
  function HoldingIn(c: Cache, keys: set<string>, d: PlayerLeaderboardDto): set<string> {
    set k | k in keys && k in c && c[k] == Stored(d)
  }

  /** The keys under the leaderboard prefix that hold the record `d`. */
  function KeysHolding(c: Cache, d: PlayerLeaderboardDto): set<string> {
    HoldingIn(c, ScanKeys(c), d)
  }

  lemma HoldingInAddKey(c: Cache, done: set<string>, k: string, d: PlayerLeaderboardDto)
    requires k !in done
    ensures |HoldingIn(c, done + {k}, d)|
            == |HoldingIn(c, done, d)| + (if k in c && c[k] == Stored(d) then 1 else 0)
  {
    if k in c && c[k] == Stored(d) {
      assert HoldingIn(c, done + {k}, d) == HoldingIn(c, done, d) + {k};
    } else {
      assert HoldingIn(c, done + {k}, d) == HoldingIn(c, done, d);
    }
  }

  /** `GetLeaderboardAsync`: scans the keys under the prefix in whatever order
      the server returns them, keeps every record that is neither nil nor
      empty, and ranks the result. Each record appears in the board exactly
      as many times as there are leaderboard keys holding it, so the board is
      a permutation of the non-empty values under the prefix; empty values
      and other keys contribute nothing. The cache is only read. */
  method GetLeaderboard(c: Cache) returns (board: seq<PlayerLeaderboardDto>)
    ensures Ranking.IsRanked(board)
    ensures forall d :: multiset(board)[d] == |KeysHolding(c, d)|
  {
    var scan := ScanKeys(c);
    var pending := scan;
    var collected: seq<PlayerLeaderboardDto> := [];
    while pending != {}
      invariant pending <= scan
      invariant forall d :: multiset(collected)[d] == |HoldingIn(c, scan - pending, d)|
      decreases pending
    {
      var key :| key in pending;
      var value := GetString(c, key);
      if !IsNullOrEmpty(value) {
        collected := collected + [value.value.dto];
      }
      assert scan - (pending - {key}) == (scan - pending) + {key};
      forall d
        ensures multiset(collected)[d] == |HoldingIn(c, (scan - pending) + {key}, d)|
      {
        HoldingInAddKey(c, scan - pending, key, d);
      }
      pending := pending - {key};
    }
    assert scan - pending == scan;
    board := Ranking.SortByRank(collected);
  }

  /** Every record on the board is stored under some leaderboard key, and
      every record stored under a leaderboard key is on the board. */
  lemma BoardMatchesCache(c: Cache, board: seq<PlayerLeaderboardDto>)
    requires forall d :: multiset(board)[d] == |KeysHolding(c, d)|
    ensures forall d | d in board ::
              exists k :: k in c && HasPrefix(k, KEY_PREFIX) && c[k] == Stored(d)
    ensures forall k | k in c && HasPrefix(k, KEY_PREFIX) && c[k].Stored? :: c[k].dto in board
  {
    forall d | d in board
      ensures exists k :: k in c && HasPrefix(k, KEY_PREFIX) && c[k] == Stored(d)
    {
      assert multiset(board)[d] > 0;
      var k :| k in KeysHolding(c, d);
    }
    forall k | k in c && HasPrefix(k, KEY_PREFIX) && c[k].Stored?
      ensures c[k].dto in board
    {
      assert k in KeysHolding(c, c[k].dto);
    }
  }
}
