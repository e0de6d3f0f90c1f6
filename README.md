# Sperm race: a Dafny model of the room server and the client stores

This project models the game logic of a small multiplayer browser race.

The **room server** (`server/socket.ts`) keeps a registry of game rooms. Each room has a six-character code and up to three players. Sockets create rooms, join and start them, stream positions, drop condoms, and report crossing the finish line; a disconnect removes the player and may hand the host role to the next player; a periodic sweep deletes rooms older than thirty minutes. The model is the class `RoomServer.Registry`:
- its field is the insertion-ordered room map;
- one method per socket handler;
- each method returns the events it would send, tagged with their audience: the sender, the others in the room, or everyone in the room.

The three **client stores** are zustand stores, modelled as classes with `modifies this` methods:
- `Leaderboard.LeaderboardStore` keeps per-nickname statistics and recent races. It answers top-player and fastest-time queries.
- `MysteryRewards.MysteryRewardsStore` draws weighted-rarity rewards, keeps a capped history and tracks timed effects.
- `Race.RaceStore` keeps one single-player race: the racers, the track's power-ups and obstacles, the banner effect, the voice-boost cooldown and the dropped condoms.

Supporting modules:
- `Common`: options, JavaScript truthiness of strings, ASCII case conversion, decimal rendering, scaling a random draw, and `slice(0, n)`.
- `OrderedMaps`: a JavaScript `Map` or object record with its key insertion order.
- `Sorting`: a stable sort under a total preorder; `Array.prototype.sort` is stable.
- `RoomCodes` and `Rooms`: the code generator and the per-room operations.

Parameters stand in for what the program reads from its environment:
- the clock (`now`);
- every `Math.random()` result (a draw in [0, 1));
- the ids `generateId()` returns (`freshId`);
- the elapsed frame time (`delta`).

Numbers the source keeps as floats are `real`. Clock values and counters are `int`.

Where the code departs from the evident intent of the game, the model follows the code:
- **Rankings.** `game-finished` sorts finished players by `finishTime || 0` with a stable sort over the roster. Equal times therefore keep join order (roster order), not arrival order (`Rooms.RankingsOrdered`).
- **Finish position.** The `position` of `player-crossed-finish` is the number of finished players still in the room. A finished player who leaves lowers that count, so a later finisher can repeat a position. `Rooms.FinishPositionsInCallOrder` proves positions count up only while nobody leaves.
- **`player-finished` ignores `gameStarted`.** A player can finish before the game has started.
- **Room code case.** `start-game` and the other handlers look the room up with the code exactly as sent. Only `join-room` upper-cases it.

## Model

| member | source | states |
|---|---|---|
| Common.OrDefault | server/socket.ts:76 | `s \|\| dflt` on strings: the empty string gives the default, any other string is kept |
| Common.ToUpper | server/socket.ts:117 | upper-casing keeps the length and maps each character through ASCII upper case |
| Common.ToLower | client/src/lib/stores/useLeaderboard.tsx:53 | lower-casing keeps the length and maps each character through ASCII lower case |
| Common.UpperOfLower | client/src/lib/stores/useLeaderboard.tsx:53 | upper-casing a lower-cased string equals upper-casing the original, so case variants agree |
| Common.NatToString | client/src/lib/stores/useRace.tsx:85 | `${n}` for a natural is a non-empty string of decimal digits that spells `n` (its `DecimalValue` is `n`), with no leading zero except for `0` itself |
| Common.NatToStringInjective | client/src/lib/stores/useRace.tsx:85 | two naturals render to the same text exactly when they are equal |
| Common.ScaledIndex | server/socket.ts:43 | `Math.floor(u * n)` for a draw in [0, 1) is an index below `n`, the floor of `u * n` |
| Common.ScaledBelow | server/socket.ts:43 | a draw in [0, 1) scales a positive bound `b` into [0, b) |
| Common.Find | client/src/lib/stores/useRace.tsx:255 | `find` returns the first element satisfying the predicate, with no earlier element satisfying it, or none exactly when no element does |
| Common.MapWhere | client/src/lib/stores/useRace.tsx:259-263 | a conditional `map` keeps the length, replaces each picked element by its image and keeps every other element |
| Common.SlicePrefix | client/src/lib/stores/useLeaderboard.tsx:109 | `slice(0, n)` is a prefix of the input, of length `min(n, len)`; a negative `n` counts from the end |
| Common.PushCapped | client/src/lib/stores/useMysteryRewards.tsx:92 | `[x, ...s].slice(0, cap)` for a list within the cap starts with `x`, continues with `s` and stays within the cap |
| OrderedMaps.Empty | server/socket.ts:35 | `new Map()` has no keys and no entries |
| OrderedMaps.Get | server/socket.ts:117 | `map.get(k)` is present exactly when `k` is a key, and is then that key's value |
| OrderedMaps.DistinctAt | server/socket.ts:154 | distinct keys sit at distinct positions |
| OrderedMaps.DistinctNotBefore | server/socket.ts:346 | a key of a distinct key list does not occur before its own position |
| OrderedMaps.DistinctAppend | server/socket.ts:154 | appending a key that is not yet present keeps the keys distinct |
| OrderedMaps.Without | server/socket.ts:324 | removing a key keeps the other keys and nothing else |
| OrderedMaps.WithoutAll | server/socket.ts:346-351 | removing a set of keys keeps exactly the keys outside the set |
| OrderedMaps.WithoutDistinct | server/socket.ts:313 | removing a key from distinct keys keeps them distinct; it shortens them by one exactly when the key was there |
| OrderedMaps.WithoutAllDistinct | server/socket.ts:346-351 | removing a set of keys keeps the remaining keys distinct |
| OrderedMaps.WithoutAllStep | server/socket.ts:348 | removing one more key is the same as removing the enlarged set |
| OrderedMaps.WithoutAllNone | server/socket.ts:346-351 | removing keys that are absent leaves the key order as it was |
| OrderedMaps.Set | server/socket.ts:154 | `map.set(k, v)` overwrites the entry; a new key goes last, an existing key keeps its place |
| OrderedMaps.Delete | server/socket.ts:313 | `map.delete(k)` drops the entry and the key, keeps the other keys in order, and shrinks the size by one exactly when `k` was present |
| OrderedMaps.DeleteAll | server/socket.ts:346-351 | deleting a set of keys drops exactly those entries and keys |
| OrderedMaps.DeleteAllNone | server/socket.ts:346-351 | deleting no keys changes nothing |
| OrderedMaps.DeleteAllStep | server/socket.ts:348 | deleting one key after a set of keys is deleting the enlarged set |
| OrderedMaps.Values | server/socket.ts:161 | `Array.from(map.values())` lists the values in key insertion order |
| OrderedMaps.ValuesSetPresent | server/socket.ts:218-229 | overwriting a present key replaces its value in place in `values()` |
| OrderedMaps.ValuesSetAbsent | server/socket.ts:154 | setting a new key appends its value to `values()` |
| Sorting.InsertBy | server/socket.ts:295-297 | inserting adds exactly one element: a permutation of the input plus the element |
| Sorting.SortBy | server/socket.ts:295-297 | sorting keeps the length and is a permutation of the input |
| Sorting.InsertBySorted | server/socket.ts:295-297 | inserting into a sorted sequence under a total preorder keeps it sorted |
| Sorting.SortBySorted | server/socket.ts:295-297 | the result of sorting under a total preorder is sorted |
| Sorting.InsertByTies | server/socket.ts:295-297 | inserting keeps the elements tied with any value in their relative order |
| Sorting.SortByStable | server/socket.ts:295-297 | the sort is stable: the elements tied with any value appear in input order |
| RoomCodes.CodeFor | server/socket.ts:39-46 | six draws give a code of six characters over the 32-letter alphabet |
| RoomCodes.AlphabetShape | server/socket.ts:40 | the alphabet has 32 characters, each an upper-case letter other than I and O or a digit from 2 to 9 |
| RoomCodes.UpperOfCode | server/socket.ts:117 | any case variant of a room code upper-cases back to the code |
| RoomCodes.GenerateRoomCode | server/socket.ts:39-46 | the loop builds the code the draws determine, which is a valid room code |
| RoomCodes.CreateRoomCode | server/socket.ts:49-55 | the retry loop returns the first drawn code that is not taken; it is a valid room code and free |
| Rooms.CreatedRoom | server/socket.ts:69-103 | the room has exactly one player, the creator, with colour `#FF6B9D`, not finished and nickname defaulting to "Player"; its host is the creator, it is not started and its lists are empty |
| Rooms.JoinRejection | server/socket.ts:117-132 | a join is rejected with "Room not found", then "Room is full (max 3 players)" at 3 players, then "Game already in progress", in that order; it is accepted exactly when none applies |
| Rooms.SeatedWellFormed | server/socket.ts:124-154 | seating a fresh, unfinished player under its own socket id in a room with a free seat keeps the room well formed |
| Rooms.Joined | server/socket.ts:134-154 | the joiner is added with colour `size % 6` and default nickname `Player n`; other players, the host and the rest of the room are unchanged; the roster stays within 3 |
| Rooms.Started | server/socket.ts:184-186 | starting sets `gameStarted` and stores the power-ups and obstacles verbatim, nothing else |
| Rooms.ReplacedWellFormed | server/socket.ts:218-229 | replacing a present player by one with the same ids and a finish time exactly when finished keeps the room well formed |
| Rooms.Moved | server/socket.ts:214-229 | only the sender's ten kinematic fields change; other players and fields are untouched; an unknown player is a no-op |
| Rooms.Dropped | server/socket.ts:265 | exactly one condom is appended and nothing else changes |
| Rooms.FinishedCount | server/socket.ts:288 | the number of finished players is at most the roster size |
| Rooms.FinishedCountAll | server/socket.ts:288-292 | the finished count equals the roster size exactly when every player has finished |
| Rooms.FinishedCountUpdate | server/socket.ts:281-288 | marking one unfinished player finished raises the count by exactly one |
| Rooms.FinishedOnly | server/socket.ts:296 | the filter keeps exactly the finished players, and everyone when all have finished |
| Rooms.Finished | server/socket.ts:278-282 | a missing or already finished player is a no-op; otherwise exactly that player becomes finished with `finishTime = now - createdAt` |
| Rooms.FinishIdempotent | server/socket.ts:279 | finishing a second time, at any later time, changes nothing |
| Rooms.RankingsOrdered | server/socket.ts:295-297 | the rankings are sorted by finish time, a permutation of the finished players, and keep roster order among equal times |
| Rooms.RankingsWhenAllFinished | server/socket.ts:292-297 | when everyone has finished, the rankings hold every player |
| Rooms.FinishPositionsInCallOrder | server/socket.ts:274-288 | finishes by distinct unfinished players raise the reported position by one each; the roster keys and everyone else are untouched |
| Rooms.Left | server/socket.ts:313-326 | the leaver is deleted and the others keep their order; a departing host is replaced by the first remaining player; otherwise the host is unchanged |
| Rooms.NewHostIsEarliestRemaining | server/socket.ts:323-325 | the new host was already in the roster |
| Rooms.FirstOfWithout | server/socket.ts:324 | the first remaining key is an earlier key other than the leaver |
| RoomServer.SetKeepsInvariant | server/socket.ts:103 | storing a well-formed, non-empty room under its own code keeps the registry invariant |
| RoomServer.DeleteAllKeepsInvariant | server/socket.ts:346-351 | deleting rooms keeps the registry invariant |
| RoomServer.RoomOfRegistry | server/socket.ts:103 | a registered room is filed under its own code, which is a valid room code, and is well formed with at least one player |
| RoomServer.LeftKeepsInvariant | server/socket.ts:313-333 | a departure keeps the registry invariant, whether the room is stored back or deleted |
| RoomServer.JoinEmits | server/socket.ts:157-169 | a join sends `room-joined` with the new player, the roster and the host flag to the sender, and `player-joined` to the others in the room |
| RoomServer.FirstRoomOf | server/socket.ts:310-311 | the disconnect scan finds the first room, in insertion order, whose roster holds the socket, or none |
| RoomServer.FinishEmits | server/socket.ts:284-301 | a finish sends `player-crossed-finish` with the nickname, time and position to the room; exactly when everyone has finished it also sends `game-finished` with the rankings |
| RoomServer.AfterLeave | server/socket.ts:313-333 | an emptied room is deleted from the registry; otherwise the room after the departure is stored back |
| RoomServer.LeaveEmits | server/socket.ts:316-326 | a departure sends `player-left` with the remaining roster, and `new-host` exactly when the host left and players remain |
| RoomServer.ExpiredAmongStep | server/socket.ts:346-348 | looking at one more code adds it to the expired codes seen so far exactly when its room has expired |
| RoomServer.DeleteExpiredStep | server/socket.ts:346-348 | deleting the expired rooms among one more code is deleting that code after the earlier ones exactly when it has expired |
| RoomServer.SweptAfterDeletesExpired | server/socket.ts:346-351 | after the loop has looked at the first `i` codes of the snapshot, exactly the expired rooms among them are deleted |
| RoomServer.SweepDone | server/socket.ts:346-351 | once every code is looked at, the registry is the snapshot without its expired rooms, exactly the unexpired rooms remain, and the registry invariant holds |
| RoomServer.Registry.constructor | server/socket.ts:35 | the registry starts empty |
| RoomServer.Registry.CreateRoom | server/socket.ts:69-110 | a new, free code is appended with the created room, and `room-created` goes to the sender |
| RoomServer.Registry.JoinRoom | server/socket.ts:116-169 | the room is looked up by the upper-cased code; a rejection leaves the registry unchanged and sends `room-error`; otherwise the joined room is stored, `room-joined` goes to the sender and `player-joined` to the others |
| RoomServer.Registry.StartGame | server/socket.ts:175-192 | an unknown room is a no-op; a non-host gets "Only host can start the game" and nothing changes; otherwise the room is started and `game-started` goes to everyone |
| RoomServer.Registry.UpdatePosition | server/socket.ts:211-235 | the sender's kinematics are overwritten and `player-update` goes to the others; an unknown room or player is a no-op |
| RoomServer.Registry.CollectPowerUp | server/socket.ts:239-247 | `powerup-collected` goes to the whole room exactly when the room exists |
| RoomServer.Registry.HitObstacle | server/socket.ts:250-258 | `obstacle-hit` goes to the whole room exactly when the room exists |
| RoomServer.Registry.DropCondom | server/socket.ts:261-270 | the condom is appended and `condom-dropped` goes to the others; an unknown room is a no-op |
| RoomServer.Registry.PlayerFinished | server/socket.ts:274-303 | an unknown room, an unknown player or a finished player is a no-op; otherwise the room is stored as the finish leaves it (see `Rooms.Finished`) and the finish events are sent (see `RoomServer.FinishEmits`) |
| RoomServer.Registry.Disconnect | server/socket.ts:306-338 | only the first room holding the socket changes: the player leaves, the host may pass on, an emptied room is deleted; with no such room nothing changes |
| RoomServer.Registry.Sweep | server/socket.ts:342-352 | iterating over a snapshot of the entries, exactly the rooms older than 30 minutes are deleted; the others keep their order |
| Leaderboard.Min | client/src/lib/stores/useLeaderboard.tsx:100 | `Math.min` is one of its arguments and no larger than either |
| Leaderboard.FindByNickname | client/src/lib/stores/useLeaderboard.tsx:52-54 | the first player in record order whose nickname matches ignoring case, or none exactly when no nickname matches |
| Leaderboard.FindAfterAppend | client/src/lib/stores/useLeaderboard.tsx:52-77 | adding a player later never changes an earlier match, and is found exactly when it is the first match |
| Leaderboard.Accumulated | client/src/lib/stores/useLeaderboard.tsx:95-105 | one more race; one more win exactly for position 1; the fastest time is the minimum with the new time, or the new time when none was set; counters add up; `lastPlayed` is now |
| Leaderboard.WinsAmong | client/src/lib/stores/useLeaderboard.tsx:98 | the number of winning reports is at most the number of reports |
| Leaderboard.AccumulatedAllCounts | client/src/lib/stores/useLeaderboard.tsx:95-105 | over a series of positive-time results, races and wins add up and the fastest time is at most every time recorded |
| Leaderboard.Winners | client/src/lib/stores/useLeaderboard.tsx:124 | the filter keeps exactly the first-place results |
| Leaderboard.PrefixMultiset | client/src/lib/stores/useLeaderboard.tsx:119 | a prefix holds no element more often than the whole |
| Leaderboard.SortedPrefix | client/src/lib/stores/useLeaderboard.tsx:115-119 | a prefix of a sorted permutation is sorted and drawn from the input |
| Leaderboard.TopPlayers | client/src/lib/stores/useLeaderboard.tsx:113-120 | exactly the first `min(limit, n)` players of the stable sort by wins, then races, both descending |
| Leaderboard.FastestTimes | client/src/lib/stores/useLeaderboard.tsx:122-127 | exactly the first `min(limit, w)` of the `w` first-place results in the stable sort by ascending time; every first place when `limit >= w` |
| Leaderboard.DefaultLimitQueries | client/src/lib/stores/useLeaderboard.tsx:113-127 | with the default `limit = 10`, the queries return the ten best players and the ten fastest first places, or all of them when there are fewer |
| Leaderboard.LeaderboardStore.constructor | client/src/lib/stores/useLeaderboard.tsx:47-49 | no players, no races and no current player |
| Leaderboard.LeaderboardStore.InitPlayer | client/src/lib/stores/useLeaderboard.tsx:51-80 | an existing case-insensitive nickname match becomes current with nothing else changed; otherwise a fresh record under the new id is added and becomes current |
| Leaderboard.LeaderboardStore.RecordRaceResult | client/src/lib/stores/useLeaderboard.tsx:82-111 | with no current player, or no record for it, nothing changes; otherwise its record accumulates the result and the new result goes first in the recent races, capped at 100 |
| Leaderboard.LeaderboardStore.GetTopPlayers | client/src/lib/stores/useLeaderboard.tsx:113-120 | the first `min(limit, n)` stored records of the stable sort by wins, then races |
| Leaderboard.LeaderboardStore.GetFastestTimes | client/src/lib/stores/useLeaderboard.tsx:122-127 | the first `min(limit, w)` recent first places of the stable sort by ascending time |
| Leaderboard.LeaderboardStore.GetPlayerStats | client/src/lib/stores/useLeaderboard.tsx:129-131 | the record under the id, or null exactly when there is none |
| Leaderboard.LeaderboardStore.GetCurrentPlayerStats | client/src/lib/stores/useLeaderboard.tsx:133-137 | the current player's record, or null exactly when no current id is set or it has no record |
| Leaderboard.RegisteredNicknameFound | client/src/lib/stores/useLeaderboard.tsx:51-77 | after a new nickname is registered, any case variant of it finds that record |
| MysteryRewards.PickRarityThresholds | client/src/lib/stores/useMysteryRewards.tsx:64-75 | the weights total 100, and the subtract-and-break loop picks the first rarity whose cumulative weight 50, 80, 95 or 100 reaches the scaled draw |
| MysteryRewards.RewardOf | client/src/lib/stores/useMysteryRewards.tsx:28-41 | each reward type maps to its table entry, which carries that type and the type's rarity |
| MysteryRewards.OfRarity | client/src/lib/stores/useMysteryRewards.tsx:77 | the filter keeps exactly the reward types of that rarity, drawn from the input |
| MysteryRewards.OfRarityNonEmpty | client/src/lib/stores/useMysteryRewards.tsx:77 | a list holding some reward type of the rarity filters to a non-empty pool |
| MysteryRewards.EveryRarityStocked | client/src/lib/stores/useMysteryRewards.tsx:28-41 | every rarity has at least one reward type in the table, so the pool the second draw indexes is never empty |
| MysteryRewards.GetRandomReward | client/src/lib/stores/useMysteryRewards.tsx:64-79 | the reward comes from the table, has the rarity the first draw selects, and is the one the second draw indexes among that rarity |
| MysteryRewards.Unexpired | client/src/lib/stores/useMysteryRewards.tsx:125 | the filter keeps exactly the effects that expire after now |
| MysteryRewards.UnexpiredAppend | client/src/lib/stores/useMysteryRewards.tsx:115-125 | pruning distributes over appending an effect |
| MysteryRewards.FirstActive | client/src/lib/stores/useMysteryRewards.tsx:136 | the first unexpired effect of the type, with no earlier one matching, or none exactly when there is none |
| MysteryRewards.FirstActiveAfterPrune | client/src/lib/stores/useMysteryRewards.tsx:122-137 | pruning at an earlier time does not change which effect a later query finds |
| MysteryRewards.MysteryRewardsStore.constructor | client/src/lib/stores/useMysteryRewards.tsx:82-85 | no reward, empty history and effects, popup hidden |
| MysteryRewards.MysteryRewardsStore.AddActiveEffect | client/src/lib/stores/useMysteryRewards.tsx:111-120 | a reward without a duration is ignored; otherwise one effect expiring at `now + duration` is appended |
| MysteryRewards.MysteryRewardsStore.OpenMysteryEgg | client/src/lib/stores/useMysteryRewards.tsx:87-105 | the drawn reward becomes current and goes first in the history, capped at 50; the popup shows; a reward with a duration also becomes an effect |
| MysteryRewards.MysteryRewardsStore.ShowReward | client/src/lib/stores/useMysteryRewards.tsx:90-98 | the reward becomes current and goes first in the history, which keeps the older entries in order and is capped at 50; the popup shows; a reward with a duration is appended as an effect expiring at `now + duration` |
| MysteryRewards.MysteryRewardsStore.HideRewardPopup | client/src/lib/stores/useMysteryRewards.tsx:100-102 | the popup is hidden and nothing else changes |
| MysteryRewards.MysteryRewardsStore.ClearCurrentReward | client/src/lib/stores/useMysteryRewards.tsx:107-109 | the current reward is cleared and the popup hidden |
| MysteryRewards.MysteryRewardsStore.UpdateActiveEffects | client/src/lib/stores/useMysteryRewards.tsx:122-127 | exactly the effects expiring after now remain, in order |
| MysteryRewards.MysteryRewardsStore.HasActiveEffect | client/src/lib/stores/useMysteryRewards.tsx:129-132 | true exactly when some effect of the type expires after now |
| MysteryRewards.MysteryRewardsStore.GetActiveEffectTimeRemaining | client/src/lib/stores/useMysteryRewards.tsx:134-138 | the first such effect's remaining time, positive exactly when one is active, and 0 otherwise |
| Race.Max0 | client/src/lib/stores/useRace.tsx:372 | `Math.max(0, t)` is not negative and is `t` or 0 |
| Race.BoostFor | client/src/lib/stores/useRace.tsx:273-285 | lube 1.5, mutation 1.3 and viagra 1.7 all speed the racer up |
| Race.SlowdownFor | client/src/lib/stores/useRace.tsx:315-331 | condom 2000, pill 1500, antibody and std 3000 ms, never under 1500 |
| Race.Merge | client/src/lib/stores/useRace.tsx:248 | `{ ...racer, ...updates }`; an empty update leaves the racer as it was |
| Race.MergeIdempotent | client/src/lib/stores/useRace.tsx:248 | applying the same update twice equals applying it once |
| Race.UpdateRacers | client/src/lib/stores/useRace.tsx:245-251 | the list keeps its length; racers with the id are merged; every other racer is unchanged |
| Race.FindRacer | client/src/lib/stores/useRace.tsx:266 | the first racer with the id, no earlier racer having it, or none exactly when no racer has it |
| Race.FindPlayer | client/src/lib/stores/useRace.tsx:541 | the first player racer, no earlier racer being a player, or none exactly when there is none |
| Race.FindPowerUp | client/src/lib/stores/useRace.tsx:255 | the first power-up with the id, or none exactly when none has it |
| Race.FindObstacle | client/src/lib/stores/useRace.tsx:298 | the first obstacle with the id, or none exactly when none has it |
| Race.DeactivatePowerUps | client/src/lib/stores/useRace.tsx:259-263 | power-ups with the id become inactive and every other power-up is unchanged |
| Race.DeactivateObstacles | client/src/lib/stores/useRace.tsx:302-306 | obstacles with the id become inactive and every other obstacle is unchanged |
| Race.Collected | client/src/lib/stores/useRace.tsx:253-294 | a missing or inactive power-up is a no-op; otherwise it is deactivated and, if the racer exists, the racer gets the type's multiplier, type and 3000 ms timer and the banner announces it under the racer's name |
| Race.DeactivatedPowerUpInactive | client/src/lib/stores/useRace.tsx:256-263 | after deactivation, whatever the lookup finds is inactive |
| Race.CollectOnce | client/src/lib/stores/useRace.tsx:253-263 | a second collection of the same power-up, by any racer, has no effect |
| Race.ObstacleHit | client/src/lib/stores/useRace.tsx:296-336 | a missing or inactive obstacle is a no-op; otherwise it is deactivated and, if the racer exists, the racer is halved in speed for the type's slowdown and the banner announces it |
| Race.DeactivatedObstacleInactive | client/src/lib/stores/useRace.tsx:299-306 | after deactivation, whatever the lookup finds is inactive |
| Race.HitOnce | client/src/lib/stores/useRace.tsx:296-306 | a second hit on the same obstacle, by any racer, has no effect |
| Race.Decayed | client/src/lib/stores/useRace.tsx:368-393 | each running timer becomes `max(0, t - delta)`; a power-up that runs out resets speed to 1 and clears the type; a slowdown that runs out with no active power-up resets speed to 1; nothing else changes |
| Race.DecayedTimers | client/src/lib/stores/useRace.tsx:368-390 | counting down never makes a timer negative and, for a non-negative delta, never raises one |
| Race.DecayedTwice | client/src/lib/stores/useRace.tsx:368-390 | two frames count the timers down as far as one frame of their total length |
| Race.TimersUpdated | client/src/lib/stores/useRace.tsx:365-413 | every racer counts down; the cooldown becomes `max(0, c - delta)`; the banner counts down and is removed when it reaches 0; negative timers never appear |
| Race.VoiceBoosted | client/src/lib/stores/useRace.tsx:342-356 | nothing happens while the cooldown runs; otherwise the boost is active, the cooldown is 10000 ms and a player racer gets speed 2 and the voice banner |
| Race.VoiceBoostGated | client/src/lib/stores/useRace.tsx:344 | activating twice in a row is the same as activating once |
| Race.CondomDropped | client/src/lib/stores/useRace.tsx:539-557 | with a player, exactly one active condom 50 units behind it is appended and earlier drops stay; without one, nothing changes; timers are untouched |
| Race.UpdateRacersKeepsTimers | client/src/lib/stores/useRace.tsx:245-251 | an update that sets no negative timer keeps every racer's timers non-negative |
| Race.CollectedKeepsTimers | client/src/lib/stores/useRace.tsx:253-294 | collecting a power-up keeps every timer non-negative |
| Race.ObstacleHitKeepsTimers | client/src/lib/stores/useRace.tsx:296-336 | hitting an obstacle keeps every timer non-negative |
| Race.VoiceBoostedKeepsTimers | client/src/lib/stores/useRace.tsx:342-357 | the voice boost keeps every timer non-negative |
| Race.LaneX | client/src/lib/stores/useRace.tsx:87 | a placed item's x is at least 100 from either edge |
| Race.PlacedPowerUp | client/src/lib/stores/useRace.tsx:83-90 | the k-th power-up lies at y = 500 + 400k, is active, and is inside the lanes |
| Race.PlacedObstacle | client/src/lib/stores/useRace.tsx:102-109 | the k-th obstacle lies at y = 800 + 600k, is active, and is inside the lanes |
| Race.GeneratePowerUps | client/src/lib/stores/useRace.tsx:78-95 | one power-up per 400 units from 500 up to the track height, each placed by its draws |
| Race.GenerateObstacles | client/src/lib/stores/useRace.tsx:97-114 | one obstacle per 600 units from 800 up to the track height, each placed by its draws |
| Race.InitialState | client/src/lib/stores/useRace.tsx:115-175 | a fresh race is ready on the given track, has no negative timer and has the player racer |
| Race.RaceStore.constructor | client/src/lib/stores/useRace.tsx:115-175 | the store starts in the initial state on a generated track |
| Race.RaceStore.StartRace | client/src/lib/stores/useRace.tsx:177 | only the phase changes, to racing |
| Race.RaceStore.FinishRace | client/src/lib/stores/useRace.tsx:243 | only the phase changes, to finished |
| Race.RaceStore.ResetRace | client/src/lib/stores/useRace.tsx:179-241 | everything but the track height returns to the initial state on a newly generated track |
| Race.RaceStore.UpdateRacer | client/src/lib/stores/useRace.tsx:245-251 | only the racers change, by the id-keyed merge |
| Race.RaceStore.SetActiveEffect | client/src/lib/stores/useRace.tsx:340 | only the banner changes |
| Race.RaceStore.UpdateCamera | client/src/lib/stores/useRace.tsx:338 | only the camera position changes |
| Race.RaceStore.CollectPowerUp | client/src/lib/stores/useRace.tsx:253-294 | the store makes the `Collected` transition |
| Race.RaceStore.HitObstacle | client/src/lib/stores/useRace.tsx:296-336 | the store makes the `ObstacleHit` transition |
| Race.RaceStore.ActivateVoiceBoost | client/src/lib/stores/useRace.tsx:342-357 | the store makes the `VoiceBoosted` transition |
| Race.RaceStore.VoiceBoostEnded | client/src/lib/stores/useRace.tsx:358-361 | the delayed reset sets the player's speed back to 1 and clears the boost flag |
| Race.RaceStore.UpdateTimers | client/src/lib/stores/useRace.tsx:365-413 | the store makes the `TimersUpdated` transition |
| Race.RaceStore.DropCondom | client/src/lib/stores/useRace.tsx:539-557 | the store makes the `CondomDropped` transition |

## Left out

- Socket.IO transport: `socket.join`, CORS, connection logging and the actual sending of events. Handlers return the events with their audience instead.
- `console.log` calls everywhere: they have no effect on state.
- Timers: `setInterval` for the sweep and `setTimeout` for the voice-boost reset and for hiding the reward popup. The scheduled callbacks are separate methods (`Sweep`, `VoiceBoostEnded`, `HideRewardPopup`) that the environment calls.
- `Date.now()`, `Math.random()` and `generateId()`: these are parameters. Their distribution is not modelled.
- RoomCodes.CreateRoomCode: requires the draws to contain a free code. The source loops until one appears, which a finite draw sequence cannot express.
- `window.innerWidth`/`innerHeight`: fixed at 1280 by 720. The server's spawn x is the 400 it uses when there is no window.
- `checkCollisions` and `checkSlipstreams` in the race store: floating-point distance and bump physics.
- zustand `persist` and `localStorage` for the leaderboard, and the `useMultiplayer` wrapper store.
- React components and rendering.
- Floating point: positions, velocities, timers and times are exact reals, so IEEE rounding is not modelled.
- Payloads the server stores without looking inside them (power-up, obstacle and condom lists from clients) are opaque `Blob`s.
- Object key order for integer-like ids in the leaderboard's record: insertion order is used; JavaScript would list integer-like keys first. `generateId` yields base-36 text that is rarely integer-like.
- Case conversion covers ASCII letters only; JavaScript also maps other Unicode letters.
- The store's `DeactivatePowerUps`/`DeactivateObstacles` act on every item with the id. Generated ids are distinct, but that distinctness is not proved.
