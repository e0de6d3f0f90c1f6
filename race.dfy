/** The single-player race store (client/src/lib/stores/useRace.tsx): the
    racers, the track's power-ups and obstacles, the timed banner effect,
    the voice-boost cooldown and the condoms the player has dropped.
    The random draws for the generated track, the clock and the elapsed
    time of a frame are parameters; the window is a fixed size. */
module Race {
  import opened Common

  datatype RacePhase = Ready | Racing | Finished

  datatype PowerUpType = Lube | Mutation | Viagra
  datatype ObstacleType = Condom | Pill | Antibody | Std

  /** The source's `type` field is `kind` here (`type` is a Dafny keyword). */
  datatype PowerUp = PowerUp(id: string, kind: PowerUpType, x: real, y: real, active: bool)
  datatype Obstacle = Obstacle(id: string, kind: ObstacleType, x: real, y: real, active: bool)

  datatype Racer = Racer(
    id: string, name: string, color: string,
    x: real, y: real, velocityX: real, velocityY: real,
    speedMultiplier: real, slowdownTimer: real, tailPhase: real,
    isPlayer: bool, slipstreamTimer: real,
    activePowerUpType: Option<string>, powerUpTimer: real)

  /** The banner effect: `type`, `message`, `duration`, `timer`. */
  datatype ActiveEffect = ActiveEffect(effectType: string, message: string, duration: real, timer: real)

  /** A `Partial<Racer>`: `None` is a field the update does not mention;
      `activePowerUpType` can be set to `null`, hence the nested option. */
  datatype RacerPatch = RacerPatch(
    id: Option<string>, name: Option<string>, color: Option<string>,
    x: Option<real>, y: Option<real>, velocityX: Option<real>, velocityY: Option<real>,
    speedMultiplier: Option<real>, slowdownTimer: Option<real>, tailPhase: Option<real>,
    isPlayer: Option<bool>, slipstreamTimer: Option<real>,
    activePowerUpType: Option<Option<string>>, powerUpTimer: Option<real>)

  /** Every field of the store. */
  datatype RaceState = RaceState(
    phase: RacePhase, racers: seq<Racer>, powerUps: seq<PowerUp>, obstacles: seq<Obstacle>,
    trackHeight: int, cameraY: real, activeEffect: Option<ActiveEffect>,
    lastCommentaryTime: int, voiceBoostActive: bool, voiceBoostCooldown: real,
    droppedCondoms: seq<Obstacle>)

  /** The window the source reads at load time, fixed here. */
  const ViewportWidth: real := 1280.0
  const ViewportHeight: int := 720
  const TrackHeight: int := 40 * ViewportHeight

  const PowerUpDuration: real := 3000.0
  const VoiceBoostCooldown: real := 10000.0
  const VoiceBoostMultiplier: real := 2.0
  const ObstacleMultiplier: real := 0.5
  const VoiceBoostMessage: string := "\U{1F3A4} VOICE BOOST! East or West, Goon Hack is the Best!"

  const NoChange: RacerPatch :=
    RacerPatch(None, None, None, None, None, None, None, None, None, None, None, None, None, None)

  // ----- helpers on values -----

  /** A nullable string as a condition: `null` and `""` are falsy. */
  predicate Truthy(s: Option<string>) {
    s.Some? && s.value != ""
  }

  /** `Math.max(0, t)` */
  function Max0(t: real): (m: real)
    ensures m >= 0.0 && m >= t && (m == t || m == 0.0)
  {
    if t > 0.0 then t else 0.0
  }

  function PowerUpName(t: PowerUpType): string {
    match t
    case Lube => "lube"
    case Mutation => "mutation"
    case Viagra => "viagra"
  }

  function ObstacleName(t: ObstacleType): string {
    match t
    case Condom => "condom"
    case Pill => "pill"
    case Antibody => "antibody"
    case Std => "std"
  }

  /** The speed multiplier a power-up grants. */
  function BoostFor(t: PowerUpType): (m: real)
    ensures m > 1.0
  {
    match t
    case Lube => 1.5
    case Mutation => 1.3
    case Viagra => 1.7
  }

  /** The slowdown in milliseconds an obstacle causes. */
  function SlowdownFor(t: ObstacleType): (ms: real)
    ensures ms >= 1500.0
  {
    match t
    case Condom => 2000.0
    case Pill => 1500.0
    case Antibody => 3000.0
    case Std => 3000.0
  }

  function PowerUpMessage(t: PowerUpType, name: string): string {
    match t
    case Lube => "\U{1F4A7} " + name + " got Lube Boost!"
    case Mutation => "\U{1F9EC} " + name + " got Mutation!"
    case Viagra => "\U{1F48A} " + name + " got Viagra Power!"
  }

  function ObstacleMessage(t: ObstacleType, name: string): string {
    match t
    case Condom => "\U{1F6AB} " + name + " hit Condom Barrier!"
    case Pill => "\U{1F48A} " + name + " hit Birth Control!"
    case Antibody => "\U{1F9A0} " + name + " hit Antibody!"
    case Std => "\U{1F9A0} " + name + " hit STD!"
  }

  function Pick<T>(o: Option<T>, dflt: T): T {
    if o.Some? then o.value else dflt
  }

  /** `{ ...racer, ...updates }` */
  function Merge(r: Racer, u: RacerPatch): (m: Racer)
    ensures u == NoChange ==> m == r
  {
    Racer(Pick(u.id, r.id), Pick(u.name, r.name), Pick(u.color, r.color),
          Pick(u.x, r.x), Pick(u.y, r.y), Pick(u.velocityX, r.velocityX), Pick(u.velocityY, r.velocityY),
          Pick(u.speedMultiplier, r.speedMultiplier), Pick(u.slowdownTimer, r.slowdownTimer),
          Pick(u.tailPhase, r.tailPhase), Pick(u.isPlayer, r.isPlayer),
          Pick(u.slipstreamTimer, r.slipstreamTimer),
          Pick(u.activePowerUpType, r.activePowerUpType), Pick(u.powerUpTimer, r.powerUpTimer))
  }

  /** Applying the same update twice is the same as applying it once. */
  lemma MergeIdempotent(r: Racer, u: RacerPatch)
    ensures Merge(Merge(r, u), u) == Merge(r, u)
  {
  }

  /** `racers.map(r => r.id === id ? { ...r, ...updates } : r)` */
  function UpdateRacers(rs: seq<Racer>, id: string, u: RacerPatch): (r: seq<Racer>)
    ensures |r| == |rs|
    ensures forall i :: 0 <= i < |rs| && rs[i].id != id ==> r[i] == rs[i]
    ensures forall i :: 0 <= i < |rs| && rs[i].id == id ==> r[i] == Merge(rs[i], u)
  {
    MapWhere(rs, (x: Racer) => x.id == id, (x: Racer) => Merge(x, u))
  }

  /** `racers.find(r => r.id === id)` */
  function FindRacer(rs: seq<Racer>, id: string): (r: Option<Racer>)
    ensures r.None? <==> forall i :: 0 <= i < |rs| ==> rs[i].id != id
    ensures r.Some? ==> exists i :: (0 <= i < |rs| && rs[i] == r.value && r.value.id == id
                                     && forall j :: 0 <= j < i ==> rs[j].id != id)
    ensures r.Some? ==> r.value in rs
  {
    Find(rs, (x: Racer) => x.id == id)
  }

  /** `racers.find(r => r.isPlayer)` */
  function FindPlayer(rs: seq<Racer>): (r: Option<Racer>)
    ensures r.None? <==> forall i :: 0 <= i < |rs| ==> !rs[i].isPlayer
    ensures r.Some? ==> exists i :: (0 <= i < |rs| && rs[i] == r.value && r.value.isPlayer
                                     && forall j :: 0 <= j < i ==> !rs[j].isPlayer)
    ensures r.Some? ==> r.value in rs
  {
    Find(rs, (x: Racer) => x.isPlayer)
  }

  /** `powerUps.find(p => p.id === id)` */
  function FindPowerUp(ps: seq<PowerUp>, id: string): (r: Option<PowerUp>)
    ensures r.None? <==> forall i :: 0 <= i < |ps| ==> ps[i].id != id
    ensures r.Some? ==> exists i :: (0 <= i < |ps| && ps[i] == r.value && r.value.id == id
                                     && forall j :: 0 <= j < i ==> ps[j].id != id)
  {
    Find(ps, (x: PowerUp) => x.id == id)
  }

  /** `obstacles.find(o => o.id === id)` */
  function FindObstacle(os: seq<Obstacle>, id: string): (r: Option<Obstacle>)
    ensures r.None? <==> forall i :: 0 <= i < |os| ==> os[i].id != id
    ensures r.Some? ==> exists i :: (0 <= i < |os| && os[i] == r.value && r.value.id == id
                                     && forall j :: 0 <= j < i ==> os[j].id != id)
  {
    Find(os, (x: Obstacle) => x.id == id)
  }

  /** `powerUps.map(p => p.id === id ? { ...p, active: false } : p)` */
  function DeactivatePowerUps(ps: seq<PowerUp>, id: string): (r: seq<PowerUp>)
    ensures |r| == |ps|
    ensures forall i :: 0 <= i < |ps| && ps[i].id != id ==> r[i] == ps[i]
    ensures forall i :: 0 <= i < |ps| && ps[i].id == id ==> r[i] == ps[i].(active := false)
    ensures forall i :: 0 <= i < |ps| && r[i].id == id ==> !r[i].active
  {
    MapWhere(ps, (x: PowerUp) => x.id == id, (x: PowerUp) => x.(active := false))
  }

  /** `obstacles.map(o => o.id === id ? { ...o, active: false } : o)` */
  function DeactivateObstacles(os: seq<Obstacle>, id: string): (r: seq<Obstacle>)
    ensures |r| == |os|
    ensures forall i :: 0 <= i < |os| && os[i].id != id ==> r[i] == os[i]
    ensures forall i :: 0 <= i < |os| && os[i].id == id ==> r[i] == os[i].(active := false)
    ensures forall i :: 0 <= i < |os| && r[i].id == id ==> !r[i].active
  {
    MapWhere(os, (x: Obstacle) => x.id == id, (x: Obstacle) => x.(active := false))
  }

  // ----- the state transitions -----

  /** What `collectPowerUp(racerId, powerUpId)` does: nothing unless the
      first power-up with that id is active; then every power-up with the
      id goes inactive and, if the racer exists, it gets the boost and the
      banner announces it. */
  function Collected(s: RaceState, racerId: string, powerUpId: string): (r: RaceState)
    ensures var p := FindPowerUp(s.powerUps, powerUpId);
            p.None? || !p.value.active ==> r == s
    ensures var p := FindPowerUp(s.powerUps, powerUpId);
            p.Some? && p.value.active ==>
              && r.powerUps == DeactivatePowerUps(s.powerUps, powerUpId)
              && (FindRacer(s.racers, racerId).None? ==> r == s.(powerUps := r.powerUps))
              && (FindRacer(s.racers, racerId).Some? ==>
                    var racer := FindRacer(s.racers, racerId).value;
                    r == s.(powerUps := r.powerUps,
                            racers := UpdateRacers(s.racers, racerId, NoChange.(
                              speedMultiplier := Some(BoostFor(p.value.kind)),
                              activePowerUpType := Some(Some(PowerUpName(p.value.kind))),
                              powerUpTimer := Some(PowerUpDuration))),
                            activeEffect := Some(ActiveEffect(PowerUpName(p.value.kind),
                              PowerUpMessage(p.value.kind, racer.name), PowerUpDuration, PowerUpDuration))))
  {
    match FindPowerUp(s.powerUps, powerUpId)
    case None => s
    case Some(p) =>
      if !p.active then s
      else
        var s1 := s.(powerUps := DeactivatePowerUps(s.powerUps, powerUpId));
        match FindRacer(s.racers, racerId)
        case None => s1
        case Some(racer) =>
          s1.(racers := UpdateRacers(s.racers, racerId, NoChange.(
                speedMultiplier := Some(BoostFor(p.kind)),
                activePowerUpType := Some(Some(PowerUpName(p.kind))),
                powerUpTimer := Some(PowerUpDuration))),
              activeEffect := Some(ActiveEffect(PowerUpName(p.kind), PowerUpMessage(p.kind, racer.name),
                                                PowerUpDuration, PowerUpDuration)))
  }

  /** Once collected, the first power-up with that id is inactive. */
  lemma {:induction false} DeactivatedPowerUpInactive(ps: seq<PowerUp>, id: string)
    ensures var p := FindPowerUp(DeactivatePowerUps(ps, id), id);
            p.None? || !p.value.active
  {
    var p := FindPowerUp(DeactivatePowerUps(ps, id), id);
    if p.Some? {
      var i :| 0 <= i < |ps| && DeactivatePowerUps(ps, id)[i] == p.value && p.value.id == id;
    }
  }

  /** A power-up is collected once: collecting it again, by any racer,
      changes nothing. */
  lemma CollectOnce(s: RaceState, racerId: string, other: string, powerUpId: string)
    ensures Collected(Collected(s, racerId, powerUpId), other, powerUpId) == Collected(s, racerId, powerUpId)
  {
    DeactivatedPowerUpInactive(s.powerUps, powerUpId);
  }

  /** What `hitObstacle(racerId, obstacleId)` does: nothing unless the
      first obstacle with that id is active; then every obstacle with the
      id goes inactive and, if the racer exists, it is slowed to half speed
      for the obstacle's duration and the banner announces it. */
  function ObstacleHit(s: RaceState, racerId: string, obstacleId: string): (r: RaceState)
    ensures var o := FindObstacle(s.obstacles, obstacleId);
            o.None? || !o.value.active ==> r == s
    ensures var o := FindObstacle(s.obstacles, obstacleId);
            o.Some? && o.value.active ==>
              && r.obstacles == DeactivateObstacles(s.obstacles, obstacleId)
              && (FindRacer(s.racers, racerId).None? ==> r == s.(obstacles := r.obstacles))
              && (FindRacer(s.racers, racerId).Some? ==>
                    var racer := FindRacer(s.racers, racerId).value;
                    r == s.(obstacles := r.obstacles,
                            racers := UpdateRacers(s.racers, racerId, NoChange.(
                              speedMultiplier := Some(ObstacleMultiplier),
                              slowdownTimer := Some(SlowdownFor(o.value.kind)))),
                            activeEffect := Some(ActiveEffect(ObstacleName(o.value.kind),
                              ObstacleMessage(o.value.kind, racer.name),
                              SlowdownFor(o.value.kind), SlowdownFor(o.value.kind)))))
  {
    match FindObstacle(s.obstacles, obstacleId)
    case None => s
    case Some(o) =>
      if !o.active then s
      else
        var s1 := s.(obstacles := DeactivateObstacles(s.obstacles, obstacleId));
        match FindRacer(s.racers, racerId)
        case None => s1
        case Some(racer) =>
          s1.(racers := UpdateRacers(s.racers, racerId, NoChange.(
                speedMultiplier := Some(ObstacleMultiplier),
                slowdownTimer := Some(SlowdownFor(o.kind)))),
              activeEffect := Some(ActiveEffect(ObstacleName(o.kind), ObstacleMessage(o.kind, racer.name),
                                                SlowdownFor(o.kind), SlowdownFor(o.kind))))
  }

  lemma {:induction false} DeactivatedObstacleInactive(os: seq<Obstacle>, id: string)
    ensures var o := FindObstacle(DeactivateObstacles(os, id), id);
            o.None? || !o.value.active
  {
    var o := FindObstacle(DeactivateObstacles(os, id), id);
    if o.Some? {
      var i :| 0 <= i < |os| && DeactivateObstacles(os, id)[i] == o.value && o.value.id == id;
    }
  }

  /** An obstacle hits once: hitting it again, by any racer, changes nothing. */
  lemma HitOnce(s: RaceState, racerId: string, other: string, obstacleId: string)
    ensures ObstacleHit(ObstacleHit(s, racerId, obstacleId), other, obstacleId) == ObstacleHit(s, racerId, obstacleId)
  {
    DeactivatedObstacleInactive(s.obstacles, obstacleId);
  }

  /** One racer after a frame of `delta` milliseconds: each running timer
      counts down to no less than zero; a slowdown that runs out restores
      normal speed unless a power-up is active, and a power-up that runs
      out restores normal speed and clears the power-up. */
  function Decayed(r: Racer, delta: real): (d: Racer)
    ensures d == r.(slowdownTimer := d.slowdownTimer, powerUpTimer := d.powerUpTimer,
                    slipstreamTimer := d.slipstreamTimer, speedMultiplier := d.speedMultiplier,
                    activePowerUpType := d.activePowerUpType)
    ensures r.slowdownTimer > 0.0 ==> d.slowdownTimer == Max0(r.slowdownTimer - delta)
    ensures r.slowdownTimer <= 0.0 ==> d.slowdownTimer == r.slowdownTimer
    ensures r.powerUpTimer > 0.0 ==> d.powerUpTimer == Max0(r.powerUpTimer - delta)
    ensures r.powerUpTimer <= 0.0 ==> d.powerUpTimer == r.powerUpTimer
    ensures r.slipstreamTimer > 0.0 ==> d.slipstreamTimer == Max0(r.slipstreamTimer - delta)
    ensures r.slipstreamTimer <= 0.0 ==> d.slipstreamTimer == r.slipstreamTimer
    ensures r.powerUpTimer > 0.0 && d.powerUpTimer == 0.0 ==> d.speedMultiplier == 1.0 && d.activePowerUpType == None
    ensures r.slowdownTimer > 0.0 && d.slowdownTimer == 0.0 && !Truthy(r.activePowerUpType) ==> d.speedMultiplier == 1.0
    ensures !(r.powerUpTimer > 0.0 && d.powerUpTimer == 0.0) ==> d.activePowerUpType == r.activePowerUpType
    ensures !(r.powerUpTimer > 0.0 && d.powerUpTimer == 0.0)
            && !(r.slowdownTimer > 0.0 && d.slowdownTimer == 0.0 && !Truthy(r.activePowerUpType))
            ==> d.speedMultiplier == r.speedMultiplier
  {
    var slowdown := if r.slowdownTimer > 0.0 then Max0(r.slowdownTimer - delta) else r.slowdownTimer;
    var speed1 := if r.slowdownTimer > 0.0 && slowdown == 0.0 && !Truthy(r.activePowerUpType) then 1.0
                  else r.speedMultiplier;
    var powerUp := if r.powerUpTimer > 0.0 then Max0(r.powerUpTimer - delta) else r.powerUpTimer;
    var expired := r.powerUpTimer > 0.0 && powerUp == 0.0;
    var slipstream := if r.slipstreamTimer > 0.0 then Max0(r.slipstreamTimer - delta) else r.slipstreamTimer;
    r.(slowdownTimer := slowdown, powerUpTimer := powerUp, slipstreamTimer := slipstream,
       speedMultiplier := if expired then 1.0 else speed1,
       activePowerUpType := if expired then None else r.activePowerUpType)
  }

  /** The racer's three timers are not negative. */
  predicate RacerTimersNonNegative(r: Racer) {
    r.slowdownTimer >= 0.0 && r.powerUpTimer >= 0.0 && r.slipstreamTimer >= 0.0
  }

  /** No timer of the store is negative. */
  predicate TimersNonNegative(s: RaceState) {
    && AllRacerTimersNonNegative(s.racers)
    && s.voiceBoostCooldown >= 0.0
    && (s.activeEffect.Some? ==> s.activeEffect.value.timer >= 0.0)
  }

  /** Counting down never makes a timer negative, whatever the elapsed
      time, and for a non-negative elapsed time never raises one. */
  lemma DecayedTimers(r: Racer, delta: real)
    requires RacerTimersNonNegative(r)
    ensures RacerTimersNonNegative(Decayed(r, delta))
    ensures delta >= 0.0 ==> && Decayed(r, delta).slowdownTimer <= r.slowdownTimer
                             && Decayed(r, delta).powerUpTimer <= r.powerUpTimer
                             && Decayed(r, delta).slipstreamTimer <= r.slipstreamTimer
  {
  }

  /** Two frames count a timer down as far as one frame of their total
      length. */
  lemma DecayedTwice(r: Racer, a: real, b: real)
    requires a >= 0.0 && b >= 0.0 && RacerTimersNonNegative(r)
    ensures Decayed(Decayed(r, a), b).slowdownTimer == Decayed(r, a + b).slowdownTimer
    ensures Decayed(Decayed(r, a), b).powerUpTimer == Decayed(r, a + b).powerUpTimer
    ensures Decayed(Decayed(r, a), b).slipstreamTimer == Decayed(r, a + b).slipstreamTimer
  {
  }

  /** What `updateTimers(delta)` does to the store: every racer counts
      down, the banner counts down and disappears when its time is up,
      and the voice-boost cooldown counts down to no less than zero. */
  function TimersUpdated(s: RaceState, delta: real): (r: RaceState)
    ensures |r.racers| == |s.racers|
    ensures forall i :: 0 <= i < |s.racers| ==> r.racers[i] == Decayed(s.racers[i], delta)
    ensures r.voiceBoostCooldown == Max0(s.voiceBoostCooldown - delta)
    ensures s.activeEffect.None? ==> r.activeEffect.None?
    ensures s.activeEffect.Some? && Max0(s.activeEffect.value.timer - delta) == 0.0 ==> r.activeEffect.None?
    ensures s.activeEffect.Some? && Max0(s.activeEffect.value.timer - delta) > 0.0 ==>
              r.activeEffect == Some(s.activeEffect.value.(timer := s.activeEffect.value.timer - delta))
    ensures r == s.(racers := r.racers, activeEffect := r.activeEffect, voiceBoostCooldown := r.voiceBoostCooldown)
    ensures TimersNonNegative(s) ==> TimersNonNegative(r)
  {
    var racers := seq(|s.racers|, i requires 0 <= i < |s.racers| => Decayed(s.racers[i], delta));
    var effect := match s.activeEffect
                  case None => None
                  case Some(e) =>
                    var t := Max0(e.timer - delta);
                    if t > 0.0 then Some(e.(timer := t)) else None;
    assert TimersNonNegative(s) ==> forall i :: 0 <= i < |racers| ==> RacerTimersNonNegative(racers[i]) by {
      if TimersNonNegative(s) {
        forall i | 0 <= i < |racers|
          ensures RacerTimersNonNegative(racers[i])
        {
          DecayedTimers(s.racers[i], delta);
        }
      }
    }
    s.(racers := racers, activeEffect := effect, voiceBoostCooldown := Max0(s.voiceBoostCooldown - delta))
  }

  /** What `activateVoiceBoost()` does: nothing while the cooldown runs;
      otherwise it starts the cooldown and, when there is a player racer,
      doubles its speed and shows the banner. */
  function VoiceBoosted(s: RaceState): (r: RaceState)
    ensures s.voiceBoostCooldown > 0.0 ==> r == s
    ensures s.voiceBoostCooldown <= 0.0 ==> r.voiceBoostActive && r.voiceBoostCooldown == VoiceBoostCooldown
    ensures s.voiceBoostCooldown <= 0.0 && FindPlayer(s.racers).None? ==>
              r == s.(voiceBoostActive := true, voiceBoostCooldown := VoiceBoostCooldown)
    ensures s.voiceBoostCooldown <= 0.0 && FindPlayer(s.racers).Some? ==>
              r == s.(voiceBoostActive := true, voiceBoostCooldown := VoiceBoostCooldown,
                      racers := UpdateRacers(s.racers, FindPlayer(s.racers).value.id,
                                             NoChange.(speedMultiplier := Some(VoiceBoostMultiplier))),
                      activeEffect := Some(ActiveEffect("voice", VoiceBoostMessage, 3000.0, 3000.0)))
  {
    if s.voiceBoostCooldown > 0.0 then s
    else
      var s1 := s.(voiceBoostActive := true, voiceBoostCooldown := VoiceBoostCooldown);
      match FindPlayer(s.racers)
      case None => s1
      case Some(player) =>
        s1.(racers := UpdateRacers(s.racers, player.id, NoChange.(speedMultiplier := Some(VoiceBoostMultiplier))),
            activeEffect := Some(ActiveEffect("voice", VoiceBoostMessage, 3000.0, 3000.0)))
  }

  /** The boost cannot be triggered again until the cooldown has run out:
      a second activation right after the first changes nothing. */
  lemma VoiceBoostGated(s: RaceState)
    ensures VoiceBoosted(VoiceBoosted(s)) == VoiceBoosted(s)
  {
  }

  /** The condom `dropCondom()` drops at time `now` behind racer `p`. */
  function DroppedCondom(p: Racer, now: nat): Obstacle {
    Obstacle("dropped-condom-" + NatToString(now), Condom, p.x, p.y - 50.0, true)
  }

  /** What `dropCondom()` does: with a player racer, one active condom is
      appended 50 units behind it; without one, nothing. */
  function CondomDropped(s: RaceState, now: nat): (r: RaceState)
    ensures FindPlayer(s.racers).None? ==> r == s
    ensures FindPlayer(s.racers).Some? ==>
              && |r.droppedCondoms| == |s.droppedCondoms| + 1
              && r.droppedCondoms[..|s.droppedCondoms|] == s.droppedCondoms
              && r.droppedCondoms[|s.droppedCondoms|] == DroppedCondom(FindPlayer(s.racers).value, now)
              && r.droppedCondoms[|s.droppedCondoms|].active
              && r == s.(droppedCondoms := r.droppedCondoms)
    ensures TimersNonNegative(s) ==> TimersNonNegative(r)
  {
    match FindPlayer(s.racers)
    case None => s
    case Some(p) => s.(droppedCondoms := s.droppedCondoms + [DroppedCondom(p, now)])
  }

  /** The racers' timers are all non-negative. */
  predicate AllRacerTimersNonNegative(rs: seq<Racer>) {
    forall i :: 0 <= i < |rs| ==> RacerTimersNonNegative(rs[i])
  }

  /** A patch that sets no timer to a negative value. */
  predicate PatchTimersNonNegative(u: RacerPatch) {
    && (u.slowdownTimer.Some? ==> u.slowdownTimer.value >= 0.0)
    && (u.powerUpTimer.Some? ==> u.powerUpTimer.value >= 0.0)
    && (u.slipstreamTimer.Some? ==> u.slipstreamTimer.value >= 0.0)
  }

  lemma UpdateRacersKeepsTimers(rs: seq<Racer>, id: string, u: RacerPatch)
    requires AllRacerTimersNonNegative(rs) && PatchTimersNonNegative(u)
    ensures AllRacerTimersNonNegative(UpdateRacers(rs, id, u))
  {
    var r := UpdateRacers(rs, id, u);
    forall i | 0 <= i < |r|
      ensures RacerTimersNonNegative(r[i])
    {
      assert RacerTimersNonNegative(rs[i]);
    }
  }

  /** Collecting a power-up keeps every timer non-negative. */
  lemma CollectedKeepsTimers(s: RaceState, racerId: string, powerUpId: string)
    requires TimersNonNegative(s)
    ensures TimersNonNegative(Collected(s, racerId, powerUpId))
  {
    var p := FindPowerUp(s.powerUps, powerUpId);
    if p.Some? {
      UpdateRacersKeepsTimers(s.racers, racerId, NoChange.(
        speedMultiplier := Some(BoostFor(p.value.kind)),
        activePowerUpType := Some(Some(PowerUpName(p.value.kind))),
        powerUpTimer := Some(PowerUpDuration)));
    }
  }

  /** Hitting an obstacle keeps every timer non-negative. */
  lemma ObstacleHitKeepsTimers(s: RaceState, racerId: string, obstacleId: string)
    requires TimersNonNegative(s)
    ensures TimersNonNegative(ObstacleHit(s, racerId, obstacleId))
  {
    var o := FindObstacle(s.obstacles, obstacleId);
    if o.Some? {
      UpdateRacersKeepsTimers(s.racers, racerId, NoChange.(
        speedMultiplier := Some(ObstacleMultiplier),
        slowdownTimer := Some(SlowdownFor(o.value.kind))));
    }
  }

  /** The voice boost keeps every timer non-negative. */
  lemma VoiceBoostedKeepsTimers(s: RaceState)
    requires TimersNonNegative(s)
    ensures TimersNonNegative(VoiceBoosted(s))
  {
    var player := FindPlayer(s.racers);
    if player.Some? {
      UpdateRacersKeepsTimers(s.racers, player.value.id, NoChange.(speedMultiplier := Some(VoiceBoostMultiplier)));
    }
  }

  // ----- the generated track -----

  /** How many of `start`, `start + step`, ... lie below `limit`. */
  function Slots(start: int, step: nat, limit: int): nat
    requires step > 0
    decreases limit - start
  {
    if start >= limit then 0 else 1 + Slots(start + step, step, limit)
  }

  const PowerUpSlots: nat := Slots(500, 400, TrackHeight)
  const ObstacleSlots: nat := Slots(800, 600, TrackHeight)

  const PowerUpKinds: seq<PowerUpType> := [Lube, Mutation, Viagra]
  const ObstacleKinds: seq<ObstacleType> := [Condom, Pill, Antibody, Std]

  /** Two draws per item: one for the type, one for the x position. */
  predicate AreDrawPairs(draws: seq<(real, real)>) {
    forall k :: 0 <= k < |draws| ==> IsUnitDraw(draws[k].0) && IsUnitDraw(draws[k].1)
  }

  /** `Math.random() * (CANVAS_WIDTH - 200) + 100` */
  function LaneX(u: real): (x: real)
    requires IsUnitDraw(u)
    ensures 100.0 <= x < ViewportWidth - 100.0
  {
    u * (ViewportWidth - 200.0) + 100.0
  }

  /** The power-up the k-th iteration of `generatePowerUps` places. */
  function PlacedPowerUp(k: nat, draw: (real, real)): (p: PowerUp)
    requires IsUnitDraw(draw.0) && IsUnitDraw(draw.1)
    ensures p.y == (500 + 400 * k) as real && p.active
    ensures 100.0 <= p.x < ViewportWidth - 100.0
  {
    PowerUp("powerup-" + NatToString(500 + 400 * k), PowerUpKinds[ScaledIndex(draw.0, |PowerUpKinds|)],
            LaneX(draw.1), (500 + 400 * k) as real, true)
  }

  /** The obstacle the k-th iteration of `generateObstacles` places. */
  function PlacedObstacle(k: nat, draw: (real, real)): (o: Obstacle)
    requires IsUnitDraw(draw.0) && IsUnitDraw(draw.1)
    ensures o.y == (800 + 600 * k) as real && o.active
    ensures 100.0 <= o.x < ViewportWidth - 100.0
  {
    Obstacle("obstacle-" + NatToString(800 + 600 * k), ObstacleKinds[ScaledIndex(draw.0, |ObstacleKinds|)],
             LaneX(draw.1), (800 + 600 * k) as real, true)
  }

  /** `generatePowerUps()`: one active power-up every 400 units from 500
      up to the track height. */
  method GeneratePowerUps(draws: seq<(real, real)>) returns (ps: seq<PowerUp>)
    requires |draws| == PowerUpSlots && AreDrawPairs(draws)
    ensures |ps| == PowerUpSlots
    ensures forall k :: 0 <= k < |ps| ==> ps[k] == PlacedPowerUp(k, draws[k])
  {
    ps := [];
    var i := 500;
    while i < TrackHeight
      invariant i == 500 + 400 * |ps|
      invariant |ps| + Slots(i, 400, TrackHeight) == PowerUpSlots
      invariant forall k :: 0 <= k < |ps| ==> ps[k] == PlacedPowerUp(k, draws[k])
      decreases TrackHeight - i
    {
      var k := |ps|;
      ps := ps + [PlacedPowerUp(k, draws[k])];
      i := i + 400;
    }
  }

  /** `generateObstacles()`: one active obstacle every 600 units from 800
      up to the track height. */
  method GenerateObstacles(draws: seq<(real, real)>) returns (os: seq<Obstacle>)
    requires |draws| == ObstacleSlots && AreDrawPairs(draws)
    ensures |os| == ObstacleSlots
    ensures forall k :: 0 <= k < |os| ==> os[k] == PlacedObstacle(k, draws[k])
  {
    os := [];
    var i := 800;
    while i < TrackHeight
      invariant i == 800 + 600 * |os|
      invariant |os| + Slots(i, 600, TrackHeight) == ObstacleSlots
      invariant forall k :: 0 <= k < |os| ==> os[k] == PlacedObstacle(k, draws[k])
      decreases TrackHeight - i
    {
      var k := |os|;
      os := os + [PlacedObstacle(k, draws[k])];
      i := i + 600;
    }
  }

  function StartingRacer(id: string, name: string, color: string, x: real, isPlayer: bool): Racer {
    Racer(id, name, color, x, 100.0, 0.0, 0.0, 1.0, 0.0, 0.0, isPlayer, 0.0, None, 0.0)
  }

  /** The three racers of a fresh race: the player in the middle lane. */
  const StartingRacers: seq<Racer> := [
    StartingRacer("player", "You", "#FF6B9D", ViewportWidth / 2.0, true),
    StartingRacer("speedy", "Speedy", "#9B59B6", ViewportWidth / 2.0 - 100.0, false),
    StartingRacer("turbo", "Turbo", "#F39C12", ViewportWidth / 2.0 + 100.0, false)
  ]

  /** The store's state before any race, for a generated track. */
  function InitialState(powerUps: seq<PowerUp>, obstacles: seq<Obstacle>): (s: RaceState)
    ensures s.phase == Ready && s.powerUps == powerUps && s.obstacles == obstacles
    ensures TimersNonNegative(s)
    ensures FindPlayer(s.racers).Some? && FindPlayer(s.racers).value.id == "player"
  {
    assert StartingRacers[0].isPlayer;
    RaceState(Ready, StartingRacers, powerUps, obstacles, TrackHeight, 0.0, None, 0, false, 0.0, [])
  }

  class RaceStore {
    var phase: RacePhase
    var racers: seq<Racer>
    var powerUps: seq<PowerUp>
    var obstacles: seq<Obstacle>
    var trackHeight: int
    var cameraY: real
    var activeEffect: Option<ActiveEffect>
    var lastCommentaryTime: int
    var voiceBoostActive: bool
    var voiceBoostCooldown: real
    var droppedCondoms: seq<Obstacle>

    /** All fields as one value. */
    function State(): RaceState
      reads this
    {
      RaceState(phase, racers, powerUps, obstacles, trackHeight, cameraY, activeEffect,
                lastCommentaryTime, voiceBoostActive, voiceBoostCooldown, droppedCondoms)
    }

    /** The store as created: a fresh track and the three starting racers. */
    constructor (powerUpDraws: seq<(real, real)>, obstacleDraws: seq<(real, real)>)
      requires |powerUpDraws| == PowerUpSlots && AreDrawPairs(powerUpDraws)
      requires |obstacleDraws| == ObstacleSlots && AreDrawPairs(obstacleDraws)
      ensures exists ps, os :: State() == InitialState(ps, os)
                && |ps| == PowerUpSlots && (forall k :: 0 <= k < |ps| ==> ps[k] == PlacedPowerUp(k, powerUpDraws[k]))
                && |os| == ObstacleSlots && (forall k :: 0 <= k < |os| ==> os[k] == PlacedObstacle(k, obstacleDraws[k]))
    {
      var ps := GeneratePowerUps(powerUpDraws);
      var os := GenerateObstacles(obstacleDraws);
      phase := Ready;
      racers := StartingRacers;
      powerUps := ps;
      obstacles := os;
      trackHeight := TrackHeight;
      cameraY := 0.0;
      activeEffect := None;
      lastCommentaryTime := 0;
      voiceBoostActive := false;
      voiceBoostCooldown := 0.0;
      droppedCondoms := [];
      new;
      assert State() == InitialState(ps, os);
    }

    /** `startRace()` */
    method StartRace()
      modifies this
      ensures State() == old(State()).(phase := Racing)
    {
      phase := Racing;
    }

    /** `finishRace()` */
    method FinishRace()
      modifies this
      ensures State() == old(State()).(phase := Finished)
    {
      phase := Finished;
    }

    /** `resetRace()`: back to the starting racers on a freshly generated
        track; everything except the track height is reset. */
    method ResetRace(powerUpDraws: seq<(real, real)>, obstacleDraws: seq<(real, real)>)
      requires |powerUpDraws| == PowerUpSlots && AreDrawPairs(powerUpDraws)
      requires |obstacleDraws| == ObstacleSlots && AreDrawPairs(obstacleDraws)
      modifies this
      ensures State() == InitialState(powerUps, obstacles).(trackHeight := old(trackHeight))
      ensures |powerUps| == PowerUpSlots && forall k :: 0 <= k < |powerUps| ==> powerUps[k] == PlacedPowerUp(k, powerUpDraws[k])
      ensures |obstacles| == ObstacleSlots && forall k :: 0 <= k < |obstacles| ==> obstacles[k] == PlacedObstacle(k, obstacleDraws[k])
    {
      var ps := GeneratePowerUps(powerUpDraws);
      var os := GenerateObstacles(obstacleDraws);
      phase := Ready;
      racers := StartingRacers;
      powerUps := ps;
      obstacles := os;
      cameraY := 0.0;
      activeEffect := None;
      lastCommentaryTime := 0;
      voiceBoostActive := false;
      voiceBoostCooldown := 0.0;
      droppedCondoms := [];
    }

    /** `updateRacer(id, updates)` */
    method UpdateRacer(id: string, updates: RacerPatch)
      modifies this
      ensures State() == old(State()).(racers := UpdateRacers(old(racers), id, updates))
    {
      racers := UpdateRacers(racers, id, updates);
    }

    /** `setActiveEffect(effect)` */
    method SetActiveEffect(effect: Option<ActiveEffect>)
      modifies this
      ensures State() == old(State()).(activeEffect := effect)
    {
      activeEffect := effect;
    }

    /** `updateCamera(y)` */
    method UpdateCamera(y: real)
      modifies this
      ensures State() == old(State()).(cameraY := y)
    {
      cameraY := y;
    }

    /** `collectPowerUp(racerId, powerUpId)` */
    method CollectPowerUp(racerId: string, powerUpId: string)
      modifies this
      ensures State() == Collected(old(State()), racerId, powerUpId)
    {
      var found := FindPowerUp(powerUps, powerUpId);
      if found.None? || !found.value.active {
        return;
      }
      var powerUp := found.value;
      powerUps := DeactivatePowerUps(powerUps, powerUpId);
      var racer := FindRacer(racers, racerId);
      if racer.None? {
        return;
      }
      var playerName := racer.value.name;
      UpdateRacer(racerId, NoChange.(speedMultiplier := Some(BoostFor(powerUp.kind)),
                                     activePowerUpType := Some(Some(PowerUpName(powerUp.kind))),
                                     powerUpTimer := Some(PowerUpDuration)));
      SetActiveEffect(Some(ActiveEffect(PowerUpName(powerUp.kind), PowerUpMessage(powerUp.kind, playerName),
                                        PowerUpDuration, PowerUpDuration)));
    }

    /** `hitObstacle(racerId, obstacleId)` */
    method HitObstacle(racerId: string, obstacleId: string)
      modifies this
      ensures State() == ObstacleHit(old(State()), racerId, obstacleId)
    {
      var found := FindObstacle(obstacles, obstacleId);
      if found.None? || !found.value.active {
        return;
      }
      var obstacle := found.value;
      obstacles := DeactivateObstacles(obstacles, obstacleId);
      var racer := FindRacer(racers, racerId);
      if racer.None? {
        return;
      }
      var playerName := racer.value.name;
      var slowdown := SlowdownFor(obstacle.kind);
      UpdateRacer(racerId, NoChange.(speedMultiplier := Some(ObstacleMultiplier), slowdownTimer := Some(slowdown)));
      SetActiveEffect(Some(ActiveEffect(ObstacleName(obstacle.kind), ObstacleMessage(obstacle.kind, playerName),
                                        slowdown, slowdown)));
    }

    /** `activateVoiceBoost()`, up to the scheduled reset, which is
        `VoiceBoostEnded`. */
    method ActivateVoiceBoost()
      modifies this
      ensures State() == VoiceBoosted(old(State()))
    {
      if voiceBoostCooldown > 0.0 {
        return;
      }
      var player := FindPlayer(racers);
      voiceBoostActive := true;
      voiceBoostCooldown := VoiceBoostCooldown;
      if player.Some? {
        UpdateRacer(player.value.id, NoChange.(speedMultiplier := Some(VoiceBoostMultiplier)));
        SetActiveEffect(Some(ActiveEffect("voice", VoiceBoostMessage, 3000.0, 3000.0)));
      }
    }

    /** The callback `activateVoiceBoost` schedules three seconds later
        for the player it boosted. */
    method VoiceBoostEnded(playerId: string)
      modifies this
      ensures State() == old(State()).(racers := UpdateRacers(old(racers), playerId, NoChange.(speedMultiplier := Some(1.0))),
                                       voiceBoostActive := false)
    {
      UpdateRacer(playerId, NoChange.(speedMultiplier := Some(1.0)));
      voiceBoostActive := false;
    }

    /** `updateTimers(delta)` */
    method UpdateTimers(delta: real)
      modifies this
      ensures State() == TimersUpdated(old(State()), delta)
    {
      var rs := racers;
      var newRacers := seq(|rs|, i requires 0 <= i < |rs| => Decayed(rs[i], delta));
      var newEffect := None;
      if activeEffect.Some? {
        var timer := Max0(activeEffect.value.timer - delta);
        if timer > 0.0 {
          newEffect := Some(activeEffect.value.(timer := timer));
        }
      }
      racers := newRacers;
      activeEffect := newEffect;
      voiceBoostCooldown := Max0(voiceBoostCooldown - delta);
    }

    /** `dropCondom()` at time `now`. */
    method DropCondom(now: nat)
      modifies this
      ensures State() == CondomDropped(old(State()), now)
    {
      var player := FindPlayer(racers);
      if player.None? {
        return;
      }
      droppedCondoms := droppedCondoms + [DroppedCondom(player.value, now)];
    }
  }
}
