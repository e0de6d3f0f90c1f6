/** One race room of the multiplayer server (server/socket.ts): its
    participants, its relayed race layout and its completion bookkeeping,
    with each handler's effect on a single room as a function on values.
    The registry of rooms and the handlers themselves are in RoomServer. */
module Rooms {
  import opened Common
  import opened OrderedMaps
  import opened Sorting

  /** Most players a room admits (`room.players.size >= 3` rejects). */
  const Capacity: nat := 3
  const PlayerColors: seq<string> := ["#FF6B9D", "#3498DB", "#9B59B6", "#E74C3C", "#2ECC71", "#F39C12"]
  /** Spawn point: the server has no `window`, so x is the fallback 400. */
  const SpawnX: real := 400.0
  const SpawnY: real := 100.0
  /** Age in milliseconds after which the sweep deletes a room. */
  const RoomTimeout: int := 30 * 60 * 1000

  const RoomNotFound: string := "Room not found"
  const RoomFull: string := "Room is full (max 3 players)"
  const GameInProgress: string := "Game already in progress"
  const OnlyHostStarts: string := "Only host can start the game"

  /** A client payload (power-up, obstacle, dropped condom) that the
      server stores and relays without looking inside. */
  datatype Blob = Blob(json: string)

  /** The ten fields an `update-position` message overwrites. */
  datatype Kinematics = Kinematics(
    x: real, y: real, velocityX: real, velocityY: real, tailPhase: real,
    speedMultiplier: real, slowdownTimer: real, slipstreamTimer: real,
    activePowerUpType: Option<string>, powerUpTimer: real)

  datatype Player = Player(
    id: string, socketId: string, nickname: string, color: string,
    kin: Kinematics, finished: bool, finishTime: Option<int>)

  datatype Room = Room(
    id: string,
    players: OMap<string, Player>,
    powerUps: seq<Blob>, obstacles: seq<Blob>, droppedCondoms: seq<Blob>,
    gameStarted: bool, gameFinished: bool,
    host: string, createdAt: int)

  const Spawn: Kinematics := Kinematics(SpawnX, SpawnY, 0.0, 0.0, 0.0, 1.0, 0.0, 0.0, None, 0.0)

  function NewPlayer(socketId: string, nickname: string, color: string): Player {
    Player(socketId, socketId, nickname, color, Spawn, false, None)
  }

  /** The room-level invariant: the roster is keyed by socket id, holds
      at most `Capacity` players, a player has a finish time exactly when
      it has finished, and a non-empty roster contains the host. */
  ghost predicate WellFormed(r: Room) {
    && Size(r.players) <= Capacity
    && (forall k :: k in r.players.entries ==>
          r.players.entries[k].id == k && r.players.entries[k].socketId == k)
    && (forall k :: k in r.players.entries ==>
          (r.players.entries[k].finished <==> r.players.entries[k].finishTime.Some?))
    && (Size(r.players) > 0 ==> r.host in r.players.entries)
  }

  /** Replacing a present player by one with the same ids and a
      consistent finish time keeps the room well formed. */
  lemma ReplacedWellFormed(r: Room, socketId: string, p: Player)
    requires socketId in r.players.entries
    ensures WellFormed(r) && p.id == socketId && p.socketId == socketId && (p.finished <==> p.finishTime.Some?)
            ==> WellFormed(r.(players := Set(r.players, socketId, p)))
  {
    var ps := Set(r.players, socketId, p);
    assert Size(ps) == Size(r.players);
  }

  // ----- create-room -----

  /** The room `create-room` registers under `code`. */
  function CreatedRoom(code: string, socketId: string, nickname: string, now: int): (r: Room)
    ensures WellFormed(r)
    ensures r.id == code && r.host == socketId && r.createdAt == now
    ensures r.players.keys == [socketId]
    ensures Values(r.players) == [NewPlayer(socketId, OrDefault(nickname, "Player"), PlayerColors[0])]
    ensures !r.gameStarted && !r.gameFinished
    ensures r.powerUps == [] && r.obstacles == [] && r.droppedCondoms == []
  {
    var creator := NewPlayer(socketId, OrDefault(nickname, "Player"), PlayerColors[0]);
    Room(code, Set(Empty(), socketId, creator), [], [], [], false, false, socketId, now)
  }

  // ----- join-room -----

  /** The first check of `join-room` that refuses `room` (`None` for a
      missing room), or `None` when the join goes ahead. */
  function JoinRejection(room: Option<Room>): (e: Option<string>)
    ensures e.None? <==> room.Some? && Size(room.value.players) < Capacity && !room.value.gameStarted
    ensures room.None? ==> e == Some(RoomNotFound)
    ensures room.Some? && Size(room.value.players) >= Capacity ==> e == Some(RoomFull)
    ensures (room.Some? && Size(room.value.players) < Capacity && room.value.gameStarted)
              ==> e == Some(GameInProgress)
  {
    match room
    case None => Some(RoomNotFound)
    case Some(r) =>
      if Size(r.players) >= Capacity then Some(RoomFull)
      else if r.gameStarted then Some(GameInProgress)
      else None
  }

  /** The player a successful `join-room` creates: colour by roster size,
      default nickname "Player n" for the n-th seat. */
  function JoiningPlayer(r: Room, socketId: string, nickname: string): Player {
    var n := Size(r.players);
    NewPlayer(socketId, OrDefault(nickname, "Player " + NatToString(n + 1)), PlayerColors[n % |PlayerColors|])
  }

  /** `room.players.set(socket.id, player)` for an admitted join. */
  function Joined(r: Room, socketId: string, nickname: string): (r': Room)
    ensures r' == r.(players := r'.players)
    ensures socketId in r'.players.entries
    ensures r'.players.entries[socketId] == JoiningPlayer(r, socketId, nickname)
    ensures forall k :: k in r.players.entries && k != socketId ==>
              k in r'.players.entries && r'.players.entries[k] == r.players.entries[k]
    ensures socketId !in r.players.keys ==> r'.players.keys == r.players.keys + [socketId]
    ensures socketId in r.players.keys ==> r'.players.keys == r.players.keys
    ensures Size(r'.players) <= Size(r.players) + 1
    ensures WellFormed(r) && 0 < Size(r.players) < Capacity ==> WellFormed(r')
  {
    var p := JoiningPlayer(r, socketId, nickname);
    SeatedWellFormed(r, socketId, p);
    r.(players := Set(r.players, socketId, p))
  }

  /** Seating a player with the right ids and no finish in a room with
      a free seat keeps the room well formed. */
  lemma SeatedWellFormed(r: Room, socketId: string, p: Player)
    ensures WellFormed(r) && 0 < Size(r.players) < Capacity
            && p.id == socketId && p.socketId == socketId && !p.finished && p.finishTime.None?
            ==> WellFormed(r.(players := Set(r.players, socketId, p)))
  {
    var ps := Set(r.players, socketId, p);
    assert Size(ps) <= Size(r.players) + 1;
  }

  // ----- start-game, update-position, drop-condom -----

  /** What a successful `start-game` does to the room. */
  function Started(r: Room, powerUps: seq<Blob>, obstacles: seq<Blob>): (r': Room)
    ensures r'.gameStarted && r'.powerUps == powerUps && r'.obstacles == obstacles
    ensures r' == r.(gameStarted := true, powerUps := powerUps, obstacles := obstacles)
    ensures WellFormed(r) ==> WellFormed(r')
  {
    r.(gameStarted := true, powerUps := powerUps, obstacles := obstacles)
  }

  /** `Object.assign(player, {...ten fields})` for the sender, when present. */
  function Moved(r: Room, socketId: string, kin: Kinematics): (r': Room)
    ensures r' == r.(players := r'.players)
    ensures r'.players.keys == r.players.keys
    ensures forall k :: k in r.players.entries && k != socketId ==>
              r'.players.entries[k] == r.players.entries[k]
    ensures socketId in r.players.entries ==>
              r'.players.entries[socketId] == r.players.entries[socketId].(kin := kin)
    ensures socketId !in r.players.entries ==> r' == r
    ensures WellFormed(r) ==> WellFormed(r')
  {
    if socketId in r.players.entries then
      var p := r.players.entries[socketId].(kin := kin);
      ReplacedWellFormed(r, socketId, p);
      r.(players := Set(r.players, socketId, p))
    else r
  }

  /** `room.droppedCondoms.push(condom)` */
  function Dropped(r: Room, condom: Blob): (r': Room)
    ensures r'.droppedCondoms == r.droppedCondoms + [condom]
    ensures r' == r.(droppedCondoms := r'.droppedCondoms)
    ensures WellFormed(r) ==> WellFormed(r')
  {
    r.(droppedCondoms := r.droppedCondoms + [condom])
  }

  // ----- player-finished -----

  /** `players.filter(p => p.finished).length` */
  function FinishedCount(ps: seq<Player>): (n: nat)
    ensures n <= |ps|
  {
    if ps == [] then 0 else (if ps[0].finished then 1 else 0) + FinishedCount(ps[1..])
  }

  predicate AllFinished(ps: seq<Player>) {
    forall i :: 0 <= i < |ps| ==> ps[i].finished
  }

  lemma {:induction false} FinishedCountAll(ps: seq<Player>)
    ensures FinishedCount(ps) == |ps| <==> AllFinished(ps)
  {
    if ps != [] {
      FinishedCountAll(ps[1..]);
      if !ps[0].finished {
        assert FinishedCount(ps[1..]) <= |ps| - 1;
      }
      assert forall i :: 1 <= i < |ps| ==> ps[i] == ps[1..][i - 1];
    }
  }

  /** Finishing one unfinished player raises the count by exactly one. */
  lemma {:induction false} FinishedCountUpdate(ps: seq<Player>, i: nat, p: Player)
    requires i < |ps| && !ps[i].finished && p.finished
    ensures FinishedCount(ps[i := p]) == FinishedCount(ps) + 1
  {
    if i > 0 {
      FinishedCountUpdate(ps[1..], i - 1, p);
      assert ps[i := p][1..] == ps[1..][i - 1 := p];
    } else {
      assert ps[i := p][1..] == ps[1..];
    }
  }

  /** The sort key `a.finishTime || 0`. */
  function FinishKey(p: Player): int {
    match p.finishTime
    case Some(t) => t
    case None => 0
  }

  /** `(a, b) => (a.finishTime || 0) - (b.finishTime || 0)` is at most zero. */
  predicate FinishesNoLater(a: Player, b: Player) {
    FinishKey(a) <= FinishKey(b)
  }

  function FinishedOnly(ps: seq<Player>): (r: seq<Player>)
    ensures forall p :: p in r <==> p in ps && p.finished
    ensures AllFinished(ps) ==> r == ps
  {
    if ps == [] then []
    else if ps[0].finished then [ps[0]] + FinishedOnly(ps[1..])
    else FinishedOnly(ps[1..])
  }

  /** The `game-finished` rankings: finished players, stably sorted by finish time. */
  function Rankings(r: Room): seq<Player> {
    SortBy(FinishedOnly(Values(r.players)), FinishesNoLater)
  }

  /** The `position` reported after a finish: how many players have finished. */
  function FinishPosition(r: Room): nat {
    FinishedCount(Values(r.players))
  }

  /** The state change of `player-finished` from `socketId` at time `now`. */
  function Finished(r: Room, socketId: string, now: int): (r': Room)
    ensures socketId !in r.players.entries || r.players.entries[socketId].finished ==> r' == r
    ensures socketId in r.players.entries && !r.players.entries[socketId].finished ==>
              && r'.players.keys == r.players.keys
              && r'.players.entries[socketId]
                   == r.players.entries[socketId].(finished := true, finishTime := Some(now - r.createdAt))
              && (forall k :: k in r.players.entries && k != socketId ==>
                    r'.players.entries[k] == r.players.entries[k])
              && FinishPosition(r') == FinishPosition(r) + 1
              && r'.gameFinished == (r.gameFinished || AllFinished(Values(r'.players)))
              && r' == r.(players := r'.players, gameFinished := r'.gameFinished)
    ensures WellFormed(r) ==> WellFormed(r')
  {
    if socketId !in r.players.entries || r.players.entries[socketId].finished then r
    else
      var p := r.players.entries[socketId].(finished := true, finishTime := Some(now - r.createdAt));
      var ps := Set(r.players, socketId, p);
      ValuesSetPresent(r.players, socketId, p);
      FinishedCountUpdate(Values(r.players), IndexOf(r.players, socketId), p);
      ReplacedWellFormed(r, socketId, p);
      if AllFinished(Values(ps)) then r.(players := ps, gameFinished := true)
      else r.(players := ps)
  }

  /** A second `player-finished` from the same socket changes nothing. */
  lemma FinishIdempotent(r: Room, socketId: string, now: int, later: int)
    ensures Finished(Finished(r, socketId, now), socketId, later) == Finished(r, socketId, now)
  {
  }

  /** The rankings are ordered by finish time, hold exactly the finished
      players, and players with equal finish times keep their roster (join)
      order. */
  lemma RankingsOrdered(r: Room, e: Player)
    ensures SortedBy(Rankings(r), FinishesNoLater)
    ensures multiset(Rankings(r)) == multiset(FinishedOnly(Values(r.players)))
    ensures TiedWith(Rankings(r), e, FinishesNoLater)
         == TiedWith(FinishedOnly(Values(r.players)), e, FinishesNoLater)
  {
    assert TotalPreorder(FinishesNoLater);
    SortBySorted(FinishedOnly(Values(r.players)), FinishesNoLater);
    SortByStable(FinishedOnly(Values(r.players)), e, FinishesNoLater);
  }

  /** Once every player has finished, the rankings are the whole roster. */
  lemma RankingsWhenAllFinished(r: Room)
    requires AllFinished(Values(r.players))
    ensures multiset(Rankings(r)) == multiset(Values(r.players))
  {
  }

  /** The room after a series of `player-finished` calls, oldest first. */
  ghost function AfterFinishes(r: Room, calls: seq<(string, int)>): Room
    decreases |calls|
  {
    if calls == [] then r
    else
      var last := calls[|calls| - 1];
      Finished(AfterFinishes(r, calls[..|calls| - 1]), last.0, last.1)
  }

  ghost predicate DistinctCallers(calls: seq<(string, int)>) {
    forall i, j :: 0 <= i < j < |calls| ==> calls[i].0 != calls[j].0
  }

  /** Finish order is arrival order: when distinct unfinished players of a
      room finish one after another, the k-th of them (counting from 0) is
      told position `FinishPosition(r) + k + 1`, i.e. 1, 2, 3, ... when
      nobody had finished before. */
  lemma {:induction false} FinishPositionsInCallOrder(r: Room, calls: seq<(string, int)>)
    requires DistinctCallers(calls)
    requires forall i :: 0 <= i < |calls| ==>
               calls[i].0 in r.players.entries && !r.players.entries[calls[i].0].finished
    ensures FinishPosition(AfterFinishes(r, calls)) == FinishPosition(r) + |calls|
    ensures AfterFinishes(r, calls).players.keys == r.players.keys
    ensures forall k :: k in r.players.entries && (forall i :: 0 <= i < |calls| ==> calls[i].0 != k) ==>
              AfterFinishes(r, calls).players.entries[k] == r.players.entries[k]
  {
    if calls != [] {
      var front := calls[..|calls| - 1];
      var last := calls[|calls| - 1];
      assert DistinctCallers(front);
      assert forall i :: 0 <= i < |front| ==> front[i] == calls[i];
      FinishPositionsInCallOrder(r, front);
      var mid := AfterFinishes(r, front);
      assert AfterFinishes(r, calls) == Finished(mid, last.0, last.1);
      assert forall i :: 0 <= i < |front| ==> front[i].0 != last.0;
      assert mid.players.entries[last.0] == r.players.entries[last.0];
      forall k | k in r.players.entries && (forall i :: 0 <= i < |calls| ==> calls[i].0 != k)
        ensures AfterFinishes(r, calls).players.entries[k] == r.players.entries[k]
      {
        assert forall i :: 0 <= i < |front| ==> front[i].0 != k;
        assert last.0 != k;
        assert k in mid.players.keys;
        assert mid.players.entries[k] == r.players.entries[k];
        assert Finished(mid, last.0, last.1).players.entries[k] == mid.players.entries[k];
      }
    }
  }

  // ----- disconnect -----

  /** The room after its player `socketId` disconnects: the player is
      deleted and, when it was the host and others remain, the first
      remaining player in join order becomes host. */
  function Left(r: Room, socketId: string): (r': Room)
    ensures r'.players == Delete(r.players, socketId)
    ensures socketId !in r'.players.entries
    ensures r'.players.keys == Without(r.players.keys, socketId)
    ensures r.host == socketId && Size(r'.players) > 0 ==> r'.host == r'.players.keys[0]
    ensures r.host != socketId || Size(r'.players) == 0 ==> r'.host == r.host
    ensures r' == r.(players := r'.players, host := r'.host)
    ensures WellFormed(r) ==> WellFormed(r')
    ensures WellFormed(r) && Size(r'.players) > 0 ==> r'.host in r'.players.entries
  {
    var ps := Delete(r.players, socketId);
    var host := if r.host == socketId && Size(ps) > 0 then ps.keys[0] else r.host;
    r.(players := ps, host := host)
  }

  /** The new host is the earliest-joined player other than the one leaving. */
  lemma {:induction false} NewHostIsEarliestRemaining(r: Room, socketId: string)
    requires r.host == socketId && Size(Left(r, socketId).players) > 0
    ensures exists i :: 0 <= i < |r.players.keys| && r.players.keys[i] == Left(r, socketId).host
              && r.players.keys[i] != socketId
              && forall j :: 0 <= j < i ==> r.players.keys[j] == socketId
  {
    FirstOfWithout(r.players.keys, socketId);
  }

  lemma {:induction false} FirstOfWithout(s: seq<string>, k: string)
    requires |Without(s, k)| > 0
    ensures exists i :: 0 <= i < |s| && s[i] == Without(s, k)[0] && s[i] != k
              && forall j :: 0 <= j < i ==> s[j] == k
  {
    if s[0] == k {
      FirstOfWithout(s[1..], k);
      var i :| 0 <= i < |s[1..]| && s[1..][i] == Without(s[1..], k)[0] && s[1..][i] != k
               && forall j :: 0 <= j < i ==> s[1..][j] == k;
      assert s[i + 1] == Without(s, k)[0];
      assert forall j :: 1 <= j < i + 1 ==> s[j] == s[1..][j - 1];
    } else {
      assert s[0] == Without(s, k)[0];
    }
  }

  // ----- expiry -----

  /** The sweep's test `now - room.createdAt > ROOM_TIMEOUT`. */
  predicate Expired(r: Room, now: int) {
    now - r.createdAt > RoomTimeout
  }
}
