/** The room registry and the socket handlers of server/socket.ts.
    The module-level `rooms` Map becomes the field of a `Registry` object.
    Each handler is a method that makes the registry change the source
    makes and returns the messages the source emits, each tagged with
    its audience. The socket id, the clock (`Date.now()`) and the random
    draws are parameters. */
module RoomServer {
  import opened Common
  import opened OrderedMaps
  import opened RoomCodes
  import opened Rooms

  /** Who receives an emit: `socket.emit` (the sender only),
      `socket.to(code)` (the room's other members) or `io.to(code)`
      (every member of the room). */
  datatype Audience = Sender | OthersIn(code: string) | Everyone(code: string)

  datatype Message =
    | RoomCreated(roomCode: string, player: Player, isHost: bool)
    | RoomJoined(roomCode: string, player: Player, players: seq<Player>, isHost: bool)
    | PlayerJoined(player: Player, players: seq<Player>)
    | RoomError(message: string)
    | GameStarted(powerUps: seq<Blob>, obstacles: seq<Blob>, players: seq<Player>)
    | PlayerUpdate(playerId: string, roomCode: string, kin: Kinematics)
    | PowerUpCollected(playerId: string, powerUpId: string)
    | ObstacleHit(playerId: string, obstacleId: string)
    | CondomDropped(playerId: string, condom: Blob)
    | PlayerCrossedFinish(playerId: string, nickname: string, finishTime: int, position: nat)
    | GameFinished(rankings: seq<Player>)
    | PlayerLeft(playerId: string, nickname: string, players: seq<Player>)
    | NewHost(hostId: string)

  datatype Emit = Emit(to: Audience, msg: Message)

  /** Every emit goes to the sender or to the members of room `code`:
      no handler reaches a room other than the one it acted on. */
  predicate ScopedTo(emits: seq<Emit>, code: string) {
    forall i :: 0 <= i < |emits| ==>
      emits[i].to == Sender || emits[i].to == OthersIn(code) || emits[i].to == Everyone(code)
  }

  /** Every live room is registered under its own code, which has the
      room-code format, is well formed and has at least one player
      (a room whose last player leaves is deleted). */
  ghost predicate RegistryInvariant(rooms: OMap<string, Room>) {
    forall c {:trigger Registered(rooms, c)} :: Registered(rooms, c)
  }

  /** The registry part of the invariant for code `c`. */
  ghost predicate Registered(rooms: OMap<string, Room>, c: string) {
    c in rooms.entries ==>
      && IsRoomCode(c)
      && rooms.entries[c].id == c
      && Rooms.WellFormed(rooms.entries[c])
      && Size(rooms.entries[c].players) > 0
  }

  /** Registering a well-formed, occupied room under its own code keeps the invariant. */
  lemma SetKeepsInvariant(rooms: OMap<string, Room>, code: string, room: Room)
    requires RegistryInvariant(rooms)
    requires IsRoomCode(code) && room.id == code && Rooms.WellFormed(room) && Size(room.players) > 0
    ensures RegistryInvariant(Set(rooms, code, room))
  {
    forall c
      ensures Registered(Set(rooms, code, room), c)
    {
      assert Registered(rooms, c);
    }
  }

  /** What the invariant says about one registered room. */
  lemma RoomOfRegistry(rooms: OMap<string, Room>, code: string)
    requires RegistryInvariant(rooms) && code in rooms.entries
    ensures IsRoomCode(code) && rooms.entries[code].id == code
    ensures Rooms.WellFormed(rooms.entries[code]) && Size(rooms.entries[code].players) > 0
  {
    assert Registered(rooms, code);
  }

  /** Deleting rooms keeps the invariant. */
  lemma DeleteAllKeepsInvariant(rooms: OMap<string, Room>, codes: set<string>)
    requires RegistryInvariant(rooms)
    ensures RegistryInvariant(DeleteAll(rooms, codes))
  {
    forall c
      ensures Registered(DeleteAll(rooms, codes), c)
    {
      assert Registered(rooms, c);
    }
  }

  /** The first room, in creation order, whose roster holds `socketId`. */
  function FirstRoomOf(keys: seq<string>, rooms: map<string, Room>, socketId: string): (c: Option<string>)
    ensures c.Some? ==> c.value in keys && c.value in rooms && socketId in rooms[c.value].players.entries
    ensures c.None? ==>
              forall i :: 0 <= i < |keys| && keys[i] in rooms ==> socketId !in rooms[keys[i]].players.entries
    ensures c.Some? ==> exists i :: (0 <= i < |keys| && keys[i] == c.value
              && forall j :: 0 <= j < i && keys[j] in rooms ==> socketId !in rooms[keys[j]].players.entries)
  {
    if keys == [] then None
    else if keys[0] in rooms && socketId in rooms[keys[0]].players.entries then Some(keys[0])
    else
      var c := FirstRoomOf(keys[1..], rooms, socketId);
      if c.Some? then
        var i :| 0 <= i < |keys[1..]| && keys[1..][i] == c.value
                 && forall j :: 0 <= j < i && keys[1..][j] in rooms ==> socketId !in rooms[keys[1..][j]].players.entries;
        assert keys[i + 1] == c.value;
        c
      else c
  }

  /** The events of a successful `join-room`: the room as it now is for
      the joiner, and the new player for the others. */
  function JoinEmits(joined: Room, code: string, socketId: string): (e: seq<Emit>)
    requires socketId in joined.players.entries
    ensures ScopedTo(e, code) && |e| == 2
    ensures e[0] == Emit(Sender, RoomJoined(code, joined.players.entries[socketId], Values(joined.players),
                                            joined.host == socketId))
    ensures e[1] == Emit(OthersIn(code), PlayerJoined(joined.players.entries[socketId], Values(joined.players)))
  {
    var player := joined.players.entries[socketId];
    [Emit(Sender, RoomJoined(code, player, Values(joined.players), joined.host == socketId)),
     Emit(OthersIn(code), PlayerJoined(player, Values(joined.players)))]
  }

  /** What `player-finished` broadcasts once `socketId` has crossed the
      line in room `code` (`done` is the room after the finish): the
      finisher's position, and the rankings when nobody is still racing. */
  function FinishEmits(done: Room, code: string, socketId: string): (e: seq<Emit>)
    requires socketId in done.players.entries && done.players.entries[socketId].finishTime.Some?
    ensures ScopedTo(e, code)
    ensures |e| == (if AllFinished(Values(done.players)) then 2 else 1)
    ensures e[0] == Emit(Everyone(code), PlayerCrossedFinish(socketId, done.players.entries[socketId].nickname,
                                                             done.players.entries[socketId].finishTime.value,
                                                             FinishPosition(done)))
    ensures |e| == 2 ==> e[1] == Emit(Everyone(code), GameFinished(Rankings(done)))
  {
    var player := done.players.entries[socketId];
    var crossed := Emit(Everyone(code), PlayerCrossedFinish(socketId, player.nickname, player.finishTime.value,
                                                            FinishPosition(done)));
    if AllFinished(Values(done.players)) then [crossed, Emit(Everyone(code), GameFinished(Rankings(done)))]
    else [crossed]
  }

  /** The registry after `socketId` leaves room `code`: the room shrinks,
      or is deleted when nobody is left. */
  function AfterLeave(rooms: OMap<string, Room>, code: string, socketId: string): (r: OMap<string, Room>)
    requires code in rooms.entries
    ensures Size(Left(rooms.entries[code], socketId).players) == 0 ==> r == Delete(rooms, code)
    ensures Size(Left(rooms.entries[code], socketId).players) > 0 ==>
              r == Set(rooms, code, Left(rooms.entries[code], socketId))
    ensures RegistryInvariant(rooms) ==> RegistryInvariant(r)
  {
    LeftKeepsInvariant(rooms, code, socketId);
    var room := Left(rooms.entries[code], socketId);
    if Size(room.players) == 0 then Delete(rooms, code) else Set(rooms, code, room)
  }

  /** A player leaving keeps the invariant, whether the room shrinks or goes. */
  lemma LeftKeepsInvariant(rooms: OMap<string, Room>, code: string, socketId: string)
    requires code in rooms.entries
    ensures RegistryInvariant(rooms) && Size(Left(rooms.entries[code], socketId).players) == 0 ==>
              RegistryInvariant(Delete(rooms, code))
    ensures RegistryInvariant(rooms) && Size(Left(rooms.entries[code], socketId).players) > 0 ==>
              RegistryInvariant(Set(rooms, code, Left(rooms.entries[code], socketId)))
  {
    if RegistryInvariant(rooms) {
      RoomOfRegistry(rooms, code);
      var room := Left(rooms.entries[code], socketId);
      if Size(room.players) == 0 {
        forall c
          ensures Registered(Delete(rooms, code), c)
        {
          assert Registered(rooms, c);
        }
      } else {
        SetKeepsInvariant(rooms, code, room);
      }
    }
  }

  /** What `disconnect` emits for a player leaving room `code`. */
  function LeaveEmits(room: Room, code: string, socketId: string): (e: seq<Emit>)
    requires socketId in room.players.entries
    ensures ScopedTo(e, code)
    ensures |e| == 1 || |e| == 2
    ensures e[0] == Emit(Everyone(code), PlayerLeft(socketId, room.players.entries[socketId].nickname,
                                                      Values(Left(room, socketId).players)))
    ensures |e| == 2 <==> room.host == socketId && Size(Left(room, socketId).players) > 0
    ensures |e| == 2 ==> e[1] == Emit(Everyone(code), NewHost(Left(room, socketId).players.keys[0]))
  {
    var left := Left(room, socketId);
    [Emit(Everyone(code), PlayerLeft(socketId, room.players.entries[socketId].nickname, Values(left.players)))]
    + (if room.host == socketId && Size(left.players) > 0 then [Emit(Everyone(code), NewHost(left.host))] else [])
  }

  ghost function ExpiredCodes(rooms: OMap<string, Room>, now: int): set<string> {
    set c | c in rooms.entries && Expired(rooms.entries[c], now)
  }

  /** The codes among `prefix` of the rooms expired at `now`. */
  ghost function ExpiredAmong(rooms: OMap<string, Room>, prefix: seq<string>, now: int): set<string> {
    set c | c in prefix && c in rooms.entries && Expired(rooms.entries[c], now)
  }

  /** One more step of the sweep: the i-th code is still registered,
      untouched, and is added to the deleted codes exactly when expired. */
  lemma ExpiredAmongStep(rooms: OMap<string, Room>, i: nat, now: int)
    requires i < |rooms.keys|
    ensures ExpiredAmong(rooms, rooms.keys[..i + 1], now)
         == ExpiredAmong(rooms, rooms.keys[..i], now)
            + (if Expired(rooms.entries[rooms.keys[i]], now) then {rooms.keys[i]} else {})
  {
    assert rooms.keys[..i + 1] == rooms.keys[..i] + [rooms.keys[i]];
  }

  /** The sweep looking at one code of `rooms`: the room is deleted from
      the registry `m` when it is expired. */
  function SweepOne(m: OMap<string, Room>, rooms: OMap<string, Room>, code: string, now: int): OMap<string, Room>
    requires code in rooms.entries
  {
    if Expired(rooms.entries[code], now) then Delete(m, code) else m
  }

  /** The registry once the sweep has looked at the first `i` codes of
      `rooms` in creation order, deleting each one that is expired. */
  function SweptAfter(rooms: OMap<string, Room>, i: nat, now: int): OMap<string, Room>
    requires i <= |rooms.keys|
  {
    if i == 0 then rooms else SweepOne(SweptAfter(rooms, i - 1, now), rooms, rooms.keys[i - 1], now)
  }

  /** The sweep goes on from where it stopped. */
  lemma SweptOneMore(rooms: OMap<string, Room>, i: nat, now: int)
    requires i < |rooms.keys|
    ensures SweptAfter(rooms, i + 1, now) == SweepOne(SweptAfter(rooms, i, now), rooms, rooms.keys[i], now)
  {
  }

  /** Looking at one more code deletes it exactly when it is expired. */
  lemma DeleteExpiredStep(rooms: OMap<string, Room>, i: nat, now: int)
    requires i < |rooms.keys|
    ensures DeleteAll(rooms, ExpiredAmong(rooms, rooms.keys[..i + 1], now))
         == SweepOne(DeleteAll(rooms, ExpiredAmong(rooms, rooms.keys[..i], now)), rooms, rooms.keys[i], now)
  {
    var code := rooms.keys[i];
    var before := ExpiredAmong(rooms, rooms.keys[..i], now);
    DistinctNotBefore(rooms.keys, i);
    assert code !in before;
    ExpiredAmongStep(rooms, i, now);
    if Expired(rooms.entries[code], now) {
      DeleteAllStep(rooms, before, code);
    } else {
      assert ExpiredAmong(rooms, rooms.keys[..i + 1], now) == before;
    }
  }

  /** Before the sweep has looked at any code, nothing is deleted. */
  lemma NothingSwept(rooms: OMap<string, Room>, now: int)
    ensures DeleteAll(rooms, ExpiredAmong(rooms, rooms.keys[..0], now)) == rooms
  {
    assert ExpiredAmong(rooms, rooms.keys[..0], now) == {};
    DeleteAllNone(rooms);
  }

  /** Deleting the expired rooms one code at a time deletes, at each
      point, exactly the expired rooms among the codes seen so far. */
  lemma {:induction false} SweptAfterDeletesExpired(rooms: OMap<string, Room>, i: nat, now: int)
    requires i <= |rooms.keys|
    ensures SweptAfter(rooms, i, now) == DeleteAll(rooms, ExpiredAmong(rooms, rooms.keys[..i], now))
  {
    if i == 0 {
      NothingSwept(rooms, now);
    } else {
      var j := i - 1;
      var code := rooms.keys[j];
      var prev := DeleteAll(rooms, ExpiredAmong(rooms, rooms.keys[..j], now));
      assert SweptAfter(rooms, i, now) == SweepOne(SweptAfter(rooms, j, now), rooms, code, now);
      SweptAfterDeletesExpired(rooms, j, now);
      assert SweptAfter(rooms, i, now) == SweepOne(prev, rooms, code, now);
      DeleteExpiredStep(rooms, j, now);
      assert rooms.keys[..j + 1] == rooms.keys[..i];
    }
  }

  /** Once the sweep has looked at every code, it has deleted exactly the
      expired rooms, so exactly the unexpired ones remain, and the registry
      invariant still holds. */
  lemma SweepDone(rooms: OMap<string, Room>, now: int)
    ensures SweptAfter(rooms, |rooms.keys|, now) == DeleteAll(rooms, ExpiredCodes(rooms, now))
    ensures forall c :: c in SweptAfter(rooms, |rooms.keys|, now).entries
                    <==> c in rooms.entries && !Expired(rooms.entries[c], now)
    ensures RegistryInvariant(rooms) ==> RegistryInvariant(SweptAfter(rooms, |rooms.keys|, now))
  {
    SweptAfterDeletesExpired(rooms, |rooms.keys|, now);
    assert rooms.keys[..|rooms.keys|] == rooms.keys;
    ExpiredAmongAll(rooms, now);
    SweptRooms(rooms, now);
    if RegistryInvariant(rooms) {
      DeleteAllKeepsInvariant(rooms, ExpiredCodes(rooms, now));
    }
  }

  /** Once the sweep has seen every code, it has collected exactly the
      expired ones. */
  lemma ExpiredAmongAll(rooms: OMap<string, Room>, now: int)
    ensures ExpiredAmong(rooms, rooms.keys, now) == ExpiredCodes(rooms, now)
  {
  }

  /** After deleting the expired rooms, exactly the unexpired ones remain. */
  lemma SweptRooms(rooms: OMap<string, Room>, now: int)
    ensures forall c :: c in DeleteAll(rooms, ExpiredCodes(rooms, now)).entries
                    <==> c in rooms.entries && !Expired(rooms.entries[c], now)
  {
  }

  class Registry {
    var rooms: OMap<string, Room>

    ghost predicate Valid()
      reads this
    {
      RegistryInvariant(rooms)
    }

    /** The registry starts empty. */
    constructor ()
      ensures Valid() && rooms == Empty()
    {
      rooms := Empty();
    }

    /** `create-room`: a fresh code, a room holding only the creator, who is host. */
    method CreateRoom(socketId: string, nickname: string, draws: seq<seq<real>>, now: int)
      returns (code: string, emits: seq<Emit>)
      requires Valid()
      requires forall j :: 0 <= j < |draws| ==> IsCodeDraw(draws[j])
      requires exists k :: 0 <= k < |draws| && CodeFor(draws[k]) !in rooms.entries
      modifies this
      ensures Valid()
      ensures IsRoomCode(code) && code !in old(rooms).entries
      ensures exists k: nat :: FirstFree(old(rooms).entries.Keys, draws, k) && code == CodeFor(draws[k])
      ensures rooms == Set(old(rooms), code, CreatedRoom(code, socketId, nickname, now))
      ensures rooms.keys == old(rooms).keys + [code]
      ensures emits == [Emit(Sender, RoomCreated(code, Values(rooms.entries[code].players)[0], true))]
    {
      code := CreateRoomCode(rooms.entries.Keys, draws);
      var room := CreatedRoom(code, socketId, nickname, now);
      SetKeepsInvariant(rooms, code, room);
      rooms := Set(rooms, code, room);
      emits := [Emit(Sender, RoomCreated(code, Values(room.players)[0], true))];
    }

    /** `join-room`: looks the code up in upper case; refuses a missing,
        full or started room without changing anything; otherwise seats
        the player, replies to it and tells the others. */
    method JoinRoom(socketId: string, roomCode: string, nickname: string) returns (emits: seq<Emit>)
      requires Valid()
      modifies this
      ensures Valid()
      ensures ScopedTo(emits, ToUpper(roomCode))
      ensures var found := Get(old(rooms), ToUpper(roomCode));
              JoinRejection(found).Some? ==>
                && rooms == old(rooms)
                && emits == [Emit(Sender, RoomError(JoinRejection(found).value))]
      ensures var found := Get(old(rooms), ToUpper(roomCode));
              JoinRejection(found).None? ==>
                var joined := Joined(found.value, socketId, nickname);
                && rooms == Set(old(rooms), ToUpper(roomCode), joined)
                && emits == JoinEmits(joined, ToUpper(roomCode), socketId)
    {
      var code := ToUpper(roomCode);
      var found := Get(rooms, code);
      var rejection := JoinRejection(found);
      if rejection.Some? {
        emits := [Emit(Sender, RoomError(rejection.value))];
        return;
      }
      RoomOfRegistry(rooms, code);
      var joined := Joined(found.value, socketId, nickname);
      assert socketId in joined.players.keys;
      SetKeepsInvariant(rooms, code, joined);
      rooms := Set(rooms, code, joined);
      emits := JoinEmits(joined, code, socketId);
    }

    /** `start-game`: only the host may start; the layout is stored as sent. */
    method StartGame(socketId: string, roomCode: string, powerUps: seq<Blob>, obstacles: seq<Blob>)
      returns (emits: seq<Emit>)
      requires Valid()
      modifies this
      ensures Valid()
      ensures ScopedTo(emits, roomCode)
      ensures roomCode !in old(rooms).entries ==> rooms == old(rooms) && emits == []
      ensures roomCode in old(rooms).entries && old(rooms).entries[roomCode].host != socketId ==>
                rooms == old(rooms) && emits == [Emit(Sender, RoomError(OnlyHostStarts))]
      ensures roomCode in old(rooms).entries && old(rooms).entries[roomCode].host == socketId ==>
                var started := Started(old(rooms).entries[roomCode], powerUps, obstacles);
                && rooms == Set(old(rooms), roomCode, started)
                && emits == [Emit(Everyone(roomCode), GameStarted(powerUps, obstacles, Values(started.players)))]
    {
      var found := Get(rooms, roomCode);
      if found.None? {
        return [];
      }
      var room := found.value;
      if room.host != socketId {
        return [Emit(Sender, RoomError(OnlyHostStarts))];
      }
      RoomOfRegistry(rooms, roomCode);
      var started := Started(room, powerUps, obstacles);
      SetKeepsInvariant(rooms, roomCode, started);
      rooms := Set(rooms, roomCode, started);
      emits := [Emit(Everyone(roomCode), GameStarted(powerUps, obstacles, Values(started.players)))];
    }

    /** `update-position`: overwrites the sender's kinematic fields and
        relays them to the others; silently ignored for an unknown room or player. */
    method UpdatePosition(socketId: string, roomCode: string, kin: Kinematics) returns (emits: seq<Emit>)
      requires Valid()
      modifies this
      ensures Valid()
      ensures ScopedTo(emits, roomCode)
      ensures roomCode !in old(rooms).entries || socketId !in old(rooms).entries[roomCode].players.entries ==>
                rooms == old(rooms) && emits == []
      ensures roomCode in old(rooms).entries && socketId in old(rooms).entries[roomCode].players.entries ==>
                && rooms == Set(old(rooms), roomCode, Moved(old(rooms).entries[roomCode], socketId, kin))
                && emits == [Emit(OthersIn(roomCode), PlayerUpdate(socketId, roomCode, kin))]
    {
      var found := Get(rooms, roomCode);
      if found.None? {
        return [];
      }
      var room := found.value;
      if socketId !in room.players.entries {
        return [];
      }
      RoomOfRegistry(rooms, roomCode);
      SetKeepsInvariant(rooms, roomCode, Moved(room, socketId, kin));
      rooms := Set(rooms, roomCode, Moved(room, socketId, kin));
      emits := [Emit(OthersIn(roomCode), PlayerUpdate(socketId, roomCode, kin))];
    }

    /** `collect-powerup`: a relay to the whole room; no state changes. */
    method CollectPowerUp(socketId: string, roomCode: string, powerUpId: string) returns (emits: seq<Emit>)
      ensures roomCode in rooms.entries <==> emits != []
      ensures roomCode in rooms.entries ==> emits == [Emit(Everyone(roomCode), PowerUpCollected(socketId, powerUpId))]
    {
      if roomCode !in rooms.entries {
        return [];
      }
      emits := [Emit(Everyone(roomCode), PowerUpCollected(socketId, powerUpId))];
    }

    /** `hit-obstacle`: a relay to the whole room; no state changes. */
    method HitObstacle(socketId: string, roomCode: string, obstacleId: string) returns (emits: seq<Emit>)
      ensures roomCode in rooms.entries <==> emits != []
      ensures roomCode in rooms.entries ==> emits == [Emit(Everyone(roomCode), ObstacleHit(socketId, obstacleId))]
    {
      if roomCode !in rooms.entries {
        return [];
      }
      emits := [Emit(Everyone(roomCode), ObstacleHit(socketId, obstacleId))];
    }

    /** `drop-condom`: appends the payload and relays it to the others. */
    method DropCondom(socketId: string, roomCode: string, condom: Blob) returns (emits: seq<Emit>)
      requires Valid()
      modifies this
      ensures Valid()
      ensures ScopedTo(emits, roomCode)
      ensures roomCode !in old(rooms).entries ==> rooms == old(rooms) && emits == []
      ensures roomCode in old(rooms).entries ==>
                && rooms == Set(old(rooms), roomCode, Dropped(old(rooms).entries[roomCode], condom))
                && emits == [Emit(OthersIn(roomCode), CondomDropped(socketId, condom))]
    {
      var found := Get(rooms, roomCode);
      if found.None? {
        return [];
      }
      RoomOfRegistry(rooms, roomCode);
      SetKeepsInvariant(rooms, roomCode, Dropped(found.value, condom));
      rooms := Set(rooms, roomCode, Dropped(found.value, condom));
      emits := [Emit(OthersIn(roomCode), CondomDropped(socketId, condom))];
    }

    /** `player-finished`: ignored for an unknown room or player and for a
        player who already finished; otherwise stamps the finish, announces
        the position and, once everybody is done, the rankings. */
    method PlayerFinished(socketId: string, roomCode: string, now: int) returns (emits: seq<Emit>)
      requires Valid()
      modifies this
      ensures Valid()
      ensures ScopedTo(emits, roomCode)
      ensures || roomCode !in old(rooms).entries
              || socketId !in old(rooms).entries[roomCode].players.entries
              || old(rooms).entries[roomCode].players.entries[socketId].finished
              ==> rooms == old(rooms) && emits == []
      ensures && roomCode in old(rooms).entries
              && socketId in old(rooms).entries[roomCode].players.entries
              && !old(rooms).entries[roomCode].players.entries[socketId].finished
              ==>
                var room := old(rooms).entries[roomCode];
                var done := Finished(room, socketId, now);
                && rooms == Set(old(rooms), roomCode, done)
                && emits == FinishEmits(done, roomCode, socketId)
    {
      var found := Get(rooms, roomCode);
      if found.None? {
        return [];
      }
      var room := found.value;
      if socketId !in room.players.entries || room.players.entries[socketId].finished {
        return [];
      }
      RoomOfRegistry(rooms, roomCode);
      var done := Finished(room, socketId, now);
      SetKeepsInvariant(rooms, roomCode, done);
      rooms := Set(rooms, roomCode, done);
      emits := FinishEmits(done, roomCode, socketId);
    }

    /** `disconnect`: removes the socket's player from the first room
        (in creation order) that holds it, hands the host role on, and
        deletes the room when it is empty. */
    method Disconnect(socketId: string) returns (emits: seq<Emit>)
      requires Valid()
      modifies this
      ensures Valid()
      ensures match FirstRoomOf(old(rooms).keys, old(rooms).entries, socketId)
              case None => rooms == old(rooms) && emits == []
              case Some(code) =>
                && rooms == AfterLeave(old(rooms), code, socketId)
                && emits == LeaveEmits(old(rooms).entries[code], code, socketId)
                && ScopedTo(emits, code)
    {
      var codes := rooms.keys;
      emits := [];
      var i := 0;
      while i < |codes|
        invariant 0 <= i <= |codes|
        invariant rooms == old(rooms) && emits == []
        invariant FirstRoomOf(codes, rooms.entries, socketId) == FirstRoomOf(codes[i..], rooms.entries, socketId)
      {
        var code := codes[i];
        var room := rooms.entries[code];
        assert codes[i..][1..] == codes[i + 1..];
        if socketId in room.players.entries {
          emits := LeaveEmits(room, code, socketId);
          rooms := AfterLeave(rooms, code, socketId);
          break;
        }
        i := i + 1;
      }
    }

    /** The periodic sweep at time `now`: deletes exactly the rooms older
        than thirty minutes, whoever is in them. */
    method Sweep(now: int)
      requires Valid()
      modifies this
      ensures Valid()
      ensures rooms == DeleteAll(old(rooms), ExpiredCodes(old(rooms), now))
      ensures forall c :: c in rooms.entries <==> c in old(rooms).entries && !Expired(old(rooms).entries[c], now)
    {
      var all := rooms;
      var left := rooms;
      var i := 0;
      while i < |all.keys|
        invariant 0 <= i <= |all.keys|
        invariant left == SweptAfter(all, i, now)
      {
        var code := all.keys[i];
        SweptOneMore(all, i, now);
        if Expired(all.entries[code], now) {
          left := Delete(left, code);
        }
        i := i + 1;
      }
      rooms := left;
      SweepDone(all, now);
    }
  }
}
