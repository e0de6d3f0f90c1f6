/** The local leaderboard store (client/src/lib/stores/useLeaderboard.tsx):
    per-player statistics keyed by a generated id, the recent race
    results (newest first, at most 100) and the id of the current
    player. The generated ids and the clock are parameters. */
module Leaderboard {
  import opened Common
  import opened OrderedMaps
  import opened Sorting

  /** `recentRaces` keeps at most this many results. */
  const RecentRacesCap: int := 100
  /** The `limit` the two queries use when called without one. */
  const DefaultLimit: int := 10

  datatype PlayerStats = PlayerStats(
    id: string, nickname: string, wins: int, races: int,
    fastestTime: Option<real>,
    powerUpsCollected: int, obstaclesHit: int, mysteryEggsOpened: int,
    lastPlayed: int)

  datatype RaceResult = RaceResult(
    id: string, timestamp: int, nickname: string, position: int, time: real,
    powerUpsCollected: int, obstaclesHit: int, isMultiplayer: bool)

  /** The argument of `recordRaceResult`: a result without `id` and `timestamp`. */
  datatype RaceReport = RaceReport(
    nickname: string, position: int, time: real,
    powerUpsCollected: int, obstaclesHit: int, isMultiplayer: bool)

  /** `currentPlayerId` as a condition: `null` and `""` are falsy. */
  predicate IdIsSet(id: Option<string>) {
    id.Some? && id.value != ""
  }

  /** `player.fastestTime` as a condition: `null` and `0` are falsy. */
  predicate HasFastestTime(p: PlayerStats) {
    p.fastestTime.Some? && p.fastestTime.value != 0.0
  }

  function Min(a: real, b: real): (m: real)
    ensures m <= a && m <= b && (m == a || m == b)
  {
    if a <= b then a else b
  }

  /** The entry `initPlayer` creates for an unknown nickname. */
  function NewStats(id: string, nickname: string, now: int): PlayerStats {
    PlayerStats(id, nickname, 0, 0, None, 0, 0, 0, now)
  }

  /** `.find(p => p.nickname.toLowerCase() === nickname.toLowerCase())`:
      the first entry whose nickname matches ignoring case. */
  function FindByNickname(ps: seq<PlayerStats>, nickname: string): (r: Option<PlayerStats>)
    ensures r.None? <==> forall i :: 0 <= i < |ps| ==> !SameIgnoringCase(ps[i].nickname, nickname)
    ensures r.Some? ==> exists i :: (0 <= i < |ps| && ps[i] == r.value
              && SameIgnoringCase(r.value.nickname, nickname)
              && forall j :: 0 <= j < i ==> !SameIgnoringCase(ps[j].nickname, nickname))
  {
    if ps == [] then None
    else if SameIgnoringCase(ps[0].nickname, nickname) then Some(ps[0])
    else
      var r := FindByNickname(ps[1..], nickname);
      assert forall i :: 1 <= i < |ps| ==> ps[i] == ps[1..][i - 1];
      if r.Some? then
        var i :| 0 <= i < |ps[1..]| && ps[1..][i] == r.value
                 && SameIgnoringCase(r.value.nickname, nickname)
                 && forall j :: 0 <= j < i ==> !SameIgnoringCase(ps[1..][j].nickname, nickname);
        assert ps[i + 1] == r.value;
        r
      else r
  }

  /** Appending an entry keeps the earlier entries' matches first, and
      the appended entry is found when nothing earlier matches. */
  lemma {:induction false} FindAfterAppend(ps: seq<PlayerStats>, p: PlayerStats, nickname: string)
    ensures FindByNickname(ps, nickname).Some? ==> FindByNickname(ps + [p], nickname) == FindByNickname(ps, nickname)
    ensures FindByNickname(ps, nickname).None? && SameIgnoringCase(p.nickname, nickname) ==>
              FindByNickname(ps + [p], nickname) == Some(p)
    ensures FindByNickname(ps, nickname).None? && !SameIgnoringCase(p.nickname, nickname) ==>
              FindByNickname(ps + [p], nickname).None?
  {
    if ps != [] {
      assert (ps + [p])[1..] == ps[1..] + [p];
      FindAfterAppend(ps[1..], p, nickname);
    } else {
      assert ([] + [p])[1..] == [];
    }
  }

  /** The effect of one recorded result on the current player's entry. */
  function Accumulated(p: PlayerStats, report: RaceReport, now: int): (q: PlayerStats)
    ensures q.id == p.id && q.nickname == p.nickname && q.mysteryEggsOpened == p.mysteryEggsOpened
    ensures q.races == p.races + 1
    ensures q.wins == if report.position == 1 then p.wins + 1 else p.wins
    ensures q.fastestTime.Some? && q.fastestTime.value <= report.time
    ensures HasFastestTime(p) ==> q.fastestTime.value <= p.fastestTime.value
    ensures q.fastestTime.value == report.time || (HasFastestTime(p) && q.fastestTime == p.fastestTime)
    ensures q.powerUpsCollected == p.powerUpsCollected + report.powerUpsCollected
    ensures q.obstaclesHit == p.obstaclesHit + report.obstaclesHit
    ensures q.lastPlayed == now
  {
    p.(races := p.races + 1,
       wins := if report.position == 1 then p.wins + 1 else p.wins,
       fastestTime := Some(if HasFastestTime(p) then Min(p.fastestTime.value, report.time) else report.time),
       powerUpsCollected := p.powerUpsCollected + report.powerUpsCollected,
       obstaclesHit := p.obstaclesHit + report.obstaclesHit,
       lastPlayed := now)
  }

  /** `wins` among `reports`: those with `position === 1`. */
  function WinsAmong(reports: seq<RaceReport>): (n: nat)
    ensures n <= |reports|
  {
    if reports == [] then 0
    else WinsAmong(reports[..|reports| - 1]) + (if reports[|reports| - 1].position == 1 then 1 else 0)
  }

  /** The entry after recording `reports` one after another. */
  function AccumulatedAll(p: PlayerStats, reports: seq<RaceReport>, now: int): PlayerStats {
    if reports == [] then p
    else Accumulated(AccumulatedAll(p, reports[..|reports| - 1], now), reports[|reports| - 1], now)
  }

  /** Over a series of results, `races` counts every result and `wins`
      exactly the first places; when every time is positive, the
      fastest time is set and no slower than any of them. */
  lemma {:induction false} AccumulatedAllCounts(p: PlayerStats, reports: seq<RaceReport>, now: int)
    requires forall i :: 0 <= i < |reports| ==> reports[i].time > 0.0
    ensures AccumulatedAll(p, reports, now).races == p.races + |reports|
    ensures AccumulatedAll(p, reports, now).wins == p.wins + WinsAmong(reports)
    ensures reports != [] ==> HasFastestTime(AccumulatedAll(p, reports, now))
    ensures forall i :: 0 <= i < |reports| ==> AccumulatedAll(p, reports, now).fastestTime.value <= reports[i].time
  {
    if reports != [] {
      var front := reports[..|reports| - 1];
      assert forall i :: 0 <= i < |front| ==> front[i] == reports[i];
      AccumulatedAllCounts(p, front, now);
      var mid := AccumulatedAll(p, front, now);
      var last := Accumulated(mid, reports[|reports| - 1], now);
      assert last.fastestTime.value != 0.0;
      forall i | 0 <= i < |front|
        ensures last.fastestTime.value <= reports[i].time
      {
        assert mid.fastestTime.value <= front[i].time;
      }
    }
  }

  /** `getTopPlayers`' comparator `b.wins - a.wins`, then `b.races - a.races`,
      is at most zero: more wins first, then more races. */
  predicate RanksAbove(a: PlayerStats, b: PlayerStats) {
    a.wins > b.wins || (a.wins == b.wins && a.races >= b.races)
  }

  /** `getFastestTimes`' comparator `a.time - b.time` is at most zero. */
  predicate NoSlower(a: RaceResult, b: RaceResult) {
    a.time <= b.time
  }

  function Winners(rs: seq<RaceResult>): (r: seq<RaceResult>)
    ensures forall i :: 0 <= i < |r| ==> r[i].position == 1
    ensures forall x :: x in r <==> x in rs && x.position == 1
    ensures multiset(r) <= multiset(rs)
    ensures |r| <= |rs|
  {
    if rs == [] then []
    else
      assert rs == [rs[0]] + rs[1..];
      if rs[0].position == 1 then [rs[0]] + Winners(rs[1..]) else Winners(rs[1..])
  }

  lemma PrefixMultiset<T>(s: seq<T>, k: nat)
    requires k <= |s|
    ensures multiset(s[..k]) <= multiset(s)
  {
    assert s == s[..k] + s[k..];
  }

  /** A prefix of a sorted arrangement is sorted and drawn from the input. */
  lemma SortedPrefix<T(!new)>(s: seq<T>, le: (T, T) -> bool, limit: int)
    requires TotalPreorder(le)
    ensures SortedBy(SlicePrefix(SortBy(s, le), limit), le)
    ensures multiset(SlicePrefix(SortBy(s, le), limit)) <= multiset(s)
    ensures forall x :: x in SlicePrefix(SortBy(s, le), limit) ==> x in s
    ensures limit >= |s| ==> SlicePrefix(SortBy(s, le), limit) == SortBy(s, le)
  {
    var all := SortBy(s, le);
    SortBySorted(s, le);
    var r := SlicePrefix(all, limit);
    assert r == all[..|r|];
    forall i, j | 0 <= i < j < |r|
      ensures le(r[i], r[j])
    {
      assert r[i] == all[i] && r[j] == all[j];
    }
    PrefixMultiset(all, |r|);
    assert multiset(r) <= multiset(s);
    forall x | x in r
      ensures x in s
    {
      assert x in multiset(r);
      assert x in multiset(s);
    }
    if limit >= |s| {
      assert |r| == |all|;
    }
  }

  /** The first `limit` entries of `ps` in ranking order. */
  function TopPlayers(ps: seq<PlayerStats>, limit: int): (r: seq<PlayerStats>)
    ensures limit >= 0 ==> |r| == if limit < |ps| then limit else |ps|
    ensures |r| <= |ps|
    ensures SortedBy(r, RanksAbove)
    ensures multiset(r) <= multiset(ps)
    ensures r == SortBy(ps, RanksAbove)[..|r|]
  {
    assert TotalPreorder(RanksAbove);
    SortedPrefix(ps, RanksAbove, limit);
    SlicePrefix(SortBy(ps, RanksAbove), limit)
  }

  /** The first `limit` first places of `rs`, fastest first. */
  function FastestTimes(rs: seq<RaceResult>, limit: int): (r: seq<RaceResult>)
    ensures limit >= 0 ==> |r| == if limit < |Winners(rs)| then limit else |Winners(rs)|
    ensures |r| <= |Winners(rs)|
    ensures forall i :: 0 <= i < |r| ==> r[i].position == 1
    ensures SortedBy(r, NoSlower)
    ensures multiset(r) <= multiset(Winners(rs))
    ensures limit >= |Winners(rs)| ==> multiset(r) == multiset(Winners(rs))
    ensures r == SortBy(Winners(rs), NoSlower)[..|r|]
  {
    var w := Winners(rs);
    var r := SlicePrefix(SortBy(w, NoSlower), limit);
    assert TotalPreorder(NoSlower);
    SortedPrefix(w, NoSlower, limit);
    assert forall i :: 0 <= i < |r| ==> r[i].position == 1 by {
      forall i | 0 <= i < |r|
        ensures r[i].position == 1
      {
        assert r[i] in r;
        assert r[i] in w;
      }
    }
    assert limit >= |w| ==> r == SortBy(w, NoSlower);
    r
  }

  /** Called without an argument, `getTopPlayers` and `getFastestTimes`
      take `DefaultLimit`: the ten best players and the ten fastest first
      places, or all of them when there are fewer. */
  lemma DefaultLimitQueries(ps: seq<PlayerStats>, rs: seq<RaceResult>)
    ensures |TopPlayers(ps, DefaultLimit)| == if |ps| < 10 then |ps| else 10
    ensures |FastestTimes(rs, DefaultLimit)| == if |Winners(rs)| < 10 then |Winners(rs)| else 10
    ensures |ps| <= 10 ==> TopPlayers(ps, DefaultLimit) == SortBy(ps, RanksAbove)
    ensures |Winners(rs)| <= 10 ==> FastestTimes(rs, DefaultLimit) == SortBy(Winners(rs), NoSlower)
  {
  }

  class LeaderboardStore {
    var playerStats: OMap<string, PlayerStats>
    var recentRaces: seq<RaceResult>
    var currentPlayerId: Option<string>

    /** Every entry is stored under its own id, and the history is capped. */
    ghost predicate Valid()
      reads this
    {
      && (forall k :: k in playerStats.entries ==> playerStats.entries[k].id == k)
      && |recentRaces| <= RecentRacesCap
    }

    /** The initial state: no players, no races, no current player. */
    constructor ()
      ensures Valid()
      ensures playerStats == Empty() && recentRaces == [] && currentPlayerId == None
    {
      playerStats := Empty();
      recentRaces := [];
      currentPlayerId := None;
    }

    /** `initPlayer(nickname)`: reuses the first entry whose nickname
        matches ignoring case, otherwise registers a fresh zeroed entry
        under `freshId`; either way that id becomes current. */
    method InitPlayer(nickname: string, freshId: string, now: int) returns (id: string)
      requires Valid()
      modifies this
      ensures Valid()
      ensures recentRaces == old(recentRaces)
      ensures currentPlayerId == Some(id)
      ensures var found := FindByNickname(Values(old(playerStats)), nickname);
              found.Some? ==> id == found.value.id && playerStats == old(playerStats)
      ensures var found := FindByNickname(Values(old(playerStats)), nickname);
              found.None? ==> id == freshId && playerStats == Set(old(playerStats), freshId, NewStats(freshId, nickname, now))
    {
      var found := FindByNickname(Values(playerStats), nickname);
      if found.Some? {
        currentPlayerId := Some(found.value.id);
        return found.value.id;
      }
      playerStats := Set(playerStats, freshId, NewStats(freshId, nickname, now));
      currentPlayerId := Some(freshId);
      id := freshId;
    }

    /** `recordRaceResult(report)`: ignored without a current player or
        its entry; otherwise folds the result into that entry and puts
        it at the front of the capped history. */
    method RecordRaceResult(report: RaceReport, freshId: string, now: int)
      requires Valid()
      modifies this
      ensures Valid()
      ensures currentPlayerId == old(currentPlayerId)
      ensures !IdIsSet(old(currentPlayerId)) || old(currentPlayerId).value !in old(playerStats).entries ==>
                playerStats == old(playerStats) && recentRaces == old(recentRaces)
      ensures IdIsSet(old(currentPlayerId)) && old(currentPlayerId).value in old(playerStats).entries ==>
                var id := old(currentPlayerId).value;
                var result := RaceResult(freshId, now, report.nickname, report.position, report.time,
                                         report.powerUpsCollected, report.obstaclesHit, report.isMultiplayer);
                && playerStats == Set(old(playerStats), id, Accumulated(old(playerStats).entries[id], report, now))
                && recentRaces == SlicePrefix([result] + old(recentRaces), RecentRacesCap)
                && recentRaces[0] == result
                && recentRaces[1..] == old(recentRaces)[..|recentRaces| - 1]
    {
      if !IdIsSet(currentPlayerId) {
        return;
      }
      var id := currentPlayerId.value;
      var result := RaceResult(freshId, now, report.nickname, report.position, report.time,
                               report.powerUpsCollected, report.obstaclesHit, report.isMultiplayer);
      var found := Get(playerStats, id);
      if found.None? {
        return;
      }
      playerStats := Set(playerStats, id, Accumulated(found.value, report, now));
      var before := recentRaces;
      recentRaces := SlicePrefix([result] + recentRaces, RecentRacesCap);
      assert ([result] + before)[1..] == before;
    }

    /** `getTopPlayers(limit)`: the entries ordered by wins, then races,
        both descending, cut to `limit`. */
    function GetTopPlayers(limit: int): (r: seq<PlayerStats>)
      reads this
      ensures limit >= 0 ==> |r| == if limit < Size(playerStats) then limit else Size(playerStats)
      ensures |r| <= |Values(playerStats)|
      ensures SortedBy(r, RanksAbove)
      ensures multiset(r) <= multiset(Values(playerStats))
      ensures r == SortBy(Values(playerStats), RanksAbove)[..|r|]
    {
      TopPlayers(Values(playerStats), limit)
    }

    /** `getFastestTimes(limit)`: the recent first places, fastest first,
        cut to `limit`. */
    function GetFastestTimes(limit: int): (r: seq<RaceResult>)
      reads this
      ensures limit >= 0 ==> |r| == if limit < |Winners(recentRaces)| then limit else |Winners(recentRaces)|
      ensures |r| <= |Winners(recentRaces)|
      ensures forall i :: 0 <= i < |r| ==> r[i].position == 1
      ensures SortedBy(r, NoSlower)
      ensures multiset(r) <= multiset(Winners(recentRaces)) <= multiset(recentRaces)
      ensures limit >= |Winners(recentRaces)| ==> multiset(r) == multiset(Winners(recentRaces))
      ensures r == SortBy(Winners(recentRaces), NoSlower)[..|r|]
    {
      FastestTimes(recentRaces, limit)
    }

    /** `getPlayerStats(id)`: the entry, or `null`. */
    function GetPlayerStats(playerId: string): (r: Option<PlayerStats>)
      reads this
      ensures r.Some? <==> playerId in playerStats.entries
      ensures r.Some? ==> r.value == playerStats.entries[playerId]
    {
      Get(playerStats, playerId)
    }

    /** `getCurrentPlayerStats()`: the current player's entry, or `null`. */
    function GetCurrentPlayerStats(): (r: Option<PlayerStats>)
      reads this
      ensures r.Some? <==> IdIsSet(currentPlayerId) && currentPlayerId.value in playerStats.entries
      ensures r.Some? ==> r.value == playerStats.entries[currentPlayerId.value]
    {
      if !IdIsSet(currentPlayerId) then None else Get(playerStats, currentPlayerId.value)
    }
  }

  /** A nickname registered by `initPlayer` is found again under any
      spelling that differs only in case, so a second `initPlayer` with
      that spelling returns the same id instead of adding an entry. */
  lemma RegisteredNicknameFound(m: OMap<string, PlayerStats>, freshId: string, nickname: string,
                                variant: string, now: int)
    requires FindByNickname(Values(m), nickname).None?
    requires freshId !in m.keys
    requires SameIgnoringCase(variant, nickname)
    ensures FindByNickname(Values(Set(m, freshId, NewStats(freshId, nickname, now))), variant)
         == Some(NewStats(freshId, nickname, now))
  {
    ValuesSetAbsent(m, freshId, NewStats(freshId, nickname, now));
    FindAfterAppend(Values(m), NewStats(freshId, nickname, now), variant);
  }
}
