/** The mystery-egg store (client/src/lib/stores/useMysteryRewards.tsx):
    a fixed table of twelve rewards, a weighted draw of a rarity and then
    of a reward of that rarity, the reward history (newest first, at most
    50), and the list of timed effects with their expiry times.
    Both `Math.random()` draws and the clock are parameters. */
module MysteryRewards {
  import opened Common

  datatype RewardType =
    | SpeedBoost | MegaBoost | Shield | Magnet | Shrink | Giant
    | Rainbow | Coins | Nothing | Slowdown | Reverse | Dizzy

  datatype Rarity = Common | Rare | Epic | Legendary

  /** `duration` and `value` are optional fields. */
  datatype MysteryReward = MysteryReward(
    rewardType: RewardType, name: string, description: string, emoji: string,
    rarity: Rarity, isGood: bool, duration: Option<int>, value: Option<int>)

  datatype ActiveEffect = ActiveEffect(reward: MysteryReward, expiresAt: int)

  const SpeedBoostReward: MysteryReward := MysteryReward(SpeedBoost, "Speed Boost", "1.5x speed for 5 seconds!", "\U{26A1}", Common, true, Some(5000), None)
  const MegaBoostReward: MysteryReward := MysteryReward(MegaBoost, "MEGA BOOST", "3x speed for 3 seconds!", "\U{1F680}", Epic, true, Some(3000), None)
  const ShieldReward: MysteryReward := MysteryReward(Shield, "Shield", "Block the next obstacle!", "\U{1F6E1}\U{FE0F}", Rare, true, Some(10000), None)
  const MagnetReward: MysteryReward := MysteryReward(Magnet, "Power Magnet", "Attract nearby power-ups!", "\U{1F9F2}", Rare, true, Some(8000), None)
  const ShrinkReward: MysteryReward := MysteryReward(Shrink, "Tiny Mode", "Become tiny and dodge easier!", "\U{1F52C}", Rare, true, Some(6000), None)
  const GiantReward: MysteryReward := MysteryReward(Giant, "Giant Mode", "Become HUGE!", "\U{1F996}", Epic, true, Some(5000), None)
  const RainbowReward: MysteryReward := MysteryReward(Rainbow, "Rainbow Trail", "Leave a fabulous trail!", "\U{1F308}", Legendary, true, Some(15000), None)
  const CoinsReward: MysteryReward := MysteryReward(Coins, "Bonus Points", "+500 style points!", "\U{1F4B0}", Common, true, None, Some(500))
  const NothingReward: MysteryReward := MysteryReward(Nothing, "Empty Egg", "Better luck next time!", "\U{1F4A8}", Common, false, None, None)
  const SlowdownReward: MysteryReward := MysteryReward(Slowdown, "Slow Motion", "Everything slows down...", "\U{1F40C}", Common, false, Some(3000), None)
  const ReverseReward: MysteryReward := MysteryReward(Reverse, "Confusion", "Controls are reversed!", "\U{1F504}", Rare, false, Some(4000), None)
  const DizzyReward: MysteryReward := MysteryReward(Dizzy, "Dizzy Spell", "Screen goes wobbly!", "\U{1F635}", Rare, false, Some(3000), None)

  /** The table entry of each reward type. */
  function RewardOf(t: RewardType): (r: MysteryReward)
    ensures r.rewardType == t && r.rarity == RarityOf(t)
  {
    match t
    case SpeedBoost => SpeedBoostReward
    case MegaBoost => MegaBoostReward
    case Shield => ShieldReward
    case Magnet => MagnetReward
    case Shrink => ShrinkReward
    case Giant => GiantReward
    case Rainbow => RainbowReward
    case Coins => CoinsReward
    case Nothing => NothingReward
    case Slowdown => SlowdownReward
    case Reverse => ReverseReward
    case Dizzy => DizzyReward
  }

  /** The rarity the table gives each reward type. */
  function RarityOf(t: RewardType): Rarity {
    match t
    case SpeedBoost | Coins | Nothing | Slowdown => Common
    case Shield | Magnet | Shrink | Reverse | Dizzy => Rare
    case MegaBoost | Giant => Epic
    case Rainbow => Legendary
  }

  /** `MYSTERY_REWARDS` by reward type, in table order; each type has one
      entry, `RewardOf(t)`. */
  const TableOrder: seq<RewardType> :=
    [SpeedBoost, MegaBoost, Shield, Magnet, Shrink, Giant, Rainbow, Coins, Nothing, Slowdown, Reverse, Dizzy]

  /** The rarity weights in the iteration order of their record. */
  const RarityWeights: seq<(Rarity, int)> := [(Common, 50), (Rare, 30), (Epic, 15), (Legendary, 5)]

  /** `rewardHistory` keeps at most this many rewards. */
  const HistoryCap: int := 50

  /** The sum of the weights (the `reduce`). */
  function TotalWeight(ws: seq<(Rarity, int)>): int {
    if ws == [] then 0 else ws[0].1 + TotalWeight(ws[1..])
  }

  /** The rarity the selection loop settles on when `random` is left
      before weights `ws`: the first whose subtraction brings it to zero
      or below, and `common` when none does. */
  function PickRarity(ws: seq<(Rarity, int)>, random: real): Rarity {
    if ws == [] then Common
    else if random - ws[0].1 as real <= 0.0 then ws[0].0
    else PickRarity(ws[1..], random - ws[0].1 as real)
  }

  /** The cumulative thresholds 50, 80, 95 and 100 of the weights. */
  function RarityFor(r: real): Rarity {
    if r <= 50.0 then Common
    else if r <= 80.0 then Rare
    else if r <= 95.0 then Epic
    else Legendary
  }

  /** For a scaled draw in [0, 100) the loop picks the first rarity whose
      cumulative weight reaches the draw. */
  lemma PickRarityThresholds(r: real)
    requires 0.0 <= r < 100.0
    ensures TotalWeight(RarityWeights) == 100
    ensures PickRarity(RarityWeights, r) == RarityFor(r)
  {
    var ws := RarityWeights;
    assert ws[1..] == [(Rare, 30), (Epic, 15), (Legendary, 5)];
    assert ws[1..][1..] == [(Epic, 15), (Legendary, 5)];
    assert ws[1..][1..][1..] == [(Legendary, 5)];
    assert ws[1..][1..][1..][1..] == [];
    if r > 50.0 {
      assert PickRarity(ws, r) == PickRarity(ws[1..], r - 50.0);
      if r > 80.0 {
        assert PickRarity(ws[1..], r - 50.0) == PickRarity(ws[1..][1..], r - 80.0);
        if r > 95.0 {
          assert PickRarity(ws[1..][1..], r - 80.0) == PickRarity(ws[1..][1..][1..], r - 95.0);
        }
      }
    }
  }

  /** `MYSTERY_REWARDS.filter(r => r.rarity === rarity)`, in table order. */
  function OfRarity(ts: seq<RewardType>, rarity: Rarity): (r: seq<RewardType>)
    ensures forall t :: t in r <==> t in ts && RarityOf(t) == rarity
    ensures |r| <= |ts|
  {
    if ts == [] then []
    else if RarityOf(ts[0]) == rarity then [ts[0]] + OfRarity(ts[1..], rarity)
    else OfRarity(ts[1..], rarity)
  }

  /** A pool that holds some reward type of the rarity is not empty. */
  lemma OfRarityNonEmpty(ts: seq<RewardType>, i: nat, rarity: Rarity)
    requires i < |ts| && RarityOf(ts[i]) == rarity
    ensures |OfRarity(ts, rarity)| > 0
  {
    assert ts[i] in OfRarity(ts, rarity);
  }

  /** Every rarity has at least one reward, so the second draw always
      indexes a non-empty pool. */
  lemma EveryRarityStocked(rarity: Rarity)
    ensures |OfRarity(TableOrder, rarity)| > 0
  {
    var i := match rarity case Common => 0 case Rare => 2 case Epic => 1 case Legendary => 6;
    OfRarityNonEmpty(TableOrder, i, rarity);
  }

  /** `getRandomReward()` for the draws `u1` (the rarity) and `u2` (the
      reward within the rarity). */
  method GetRandomReward(u1: real, u2: real) returns (reward: MysteryReward)
    requires IsUnitDraw(u1) && IsUnitDraw(u2)
    ensures reward.rewardType in TableOrder && reward == RewardOf(reward.rewardType)
    ensures reward.rarity == RarityFor(u1 * 100.0)
    ensures var pool := OfRarity(TableOrder, RarityFor(u1 * 100.0));
            |pool| > 0 && reward == RewardOf(pool[ScaledIndex(u2, |pool|)])
  {
    PickRarityThresholds(u1 * 100.0);
    var random := u1 * TotalWeight(RarityWeights) as real;
    ghost var scaled := random;
    var selected := Common;
    var i := 0;
    while i < |RarityWeights|
      invariant 0 <= i <= |RarityWeights|
      invariant selected == Common
      invariant PickRarity(RarityWeights, scaled) == PickRarity(RarityWeights[i..], random)
    {
      assert RarityWeights[i..][1..] == RarityWeights[i + 1..];
      var (rarity, weight) := RarityWeights[i];
      random := random - weight as real;
      if random <= 0.0 {
        selected := rarity;
        assert selected == PickRarity(RarityWeights, scaled);
        break;
      }
      i := i + 1;
    }
    assert selected == RarityFor(u1 * 100.0);
    var pool := OfRarity(TableOrder, selected);
    EveryRarityStocked(selected);
    var t := pool[ScaledIndex(u2, |pool|)];
    assert t in pool;
    reward := RewardOf(t);
  }

  /** `reward.duration` as a condition: absent and `0` are falsy. */
  predicate HasDuration(reward: MysteryReward) {
    reward.duration.Some? && reward.duration.value != 0
  }

  /** `activeEffects.filter(e => e.expiresAt > now)` */
  function Unexpired(es: seq<ActiveEffect>, now: int): (r: seq<ActiveEffect>)
    ensures forall e :: e in r <==> e in es && e.expiresAt > now
    ensures |r| <= |es|
  {
    if es == [] then []
    else if es[0].expiresAt > now then [es[0]] + Unexpired(es[1..], now)
    else Unexpired(es[1..], now)
  }

  /** The filter keeps the original order: filtering a concatenation
      filters each part. */
  lemma {:induction false} UnexpiredAppend(a: seq<ActiveEffect>, b: seq<ActiveEffect>, now: int)
    ensures Unexpired(a + b, now) == Unexpired(a, now) + Unexpired(b, now)
  {
    if a != [] {
      assert (a + b)[1..] == a[1..] + b;
      UnexpiredAppend(a[1..], b, now);
    } else {
      assert a + b == b;
    }
  }

  /** `activeEffects.find(e => e.reward.type === type && e.expiresAt > now)` */
  function FirstActive(es: seq<ActiveEffect>, t: RewardType, now: int): (r: Option<ActiveEffect>)
    ensures r.None? <==> forall i :: 0 <= i < |es| ==> !(es[i].reward.rewardType == t && es[i].expiresAt > now)
    ensures r.Some? ==> exists i :: (0 <= i < |es| && es[i] == r.value
                                     && r.value.reward.rewardType == t && r.value.expiresAt > now
                                     && forall j :: 0 <= j < i ==> !(es[j].reward.rewardType == t && es[j].expiresAt > now))
    ensures r.Some? ==> r.value in es
  {
    Find(es, (e: ActiveEffect) => e.reward.rewardType == t && e.expiresAt > now)
  }

  /** Pruning at time `now` does not change any query made at `now` or
      later: a pruned effect had already expired. */
  lemma {:induction false} FirstActiveAfterPrune(es: seq<ActiveEffect>, t: RewardType, now: int, later: int)
    requires now <= later
    ensures FirstActive(Unexpired(es, now), t, later) == FirstActive(es, t, later)
  {
    if es != [] {
      FirstActiveAfterPrune(es[1..], t, now, later);
    }
  }

  class MysteryRewardsStore {
    var currentReward: Option<MysteryReward>
    var rewardHistory: seq<MysteryReward>
    var activeEffects: seq<ActiveEffect>
    var showRewardPopup: bool

    ghost predicate Valid()
      reads this
    {
      |rewardHistory| <= HistoryCap
    }

    constructor ()
      ensures Valid()
      ensures currentReward == None && rewardHistory == [] && activeEffects == [] && !showRewardPopup
    {
      currentReward := None;
      rewardHistory := [];
      activeEffects := [];
      showRewardPopup := false;
    }

    /** `addActiveEffect(reward)` at time `now`: a reward with a duration
        starts one effect that expires `duration` from now. */
    method AddActiveEffect(reward: MysteryReward, now: int)
      modifies this
      ensures !HasDuration(reward) ==> activeEffects == old(activeEffects)
      ensures HasDuration(reward) ==>
                activeEffects == old(activeEffects) + [ActiveEffect(reward, now + reward.duration.value)]
      ensures currentReward == old(currentReward) && rewardHistory == old(rewardHistory)
      ensures showRewardPopup == old(showRewardPopup)
    {
      if !HasDuration(reward) {
        return;
      }
      activeEffects := activeEffects + [ActiveEffect(reward, now + reward.duration.value)];
    }

    /** `openMysteryEgg()` at time `now` with draws `u1`, `u2`: shows the
        drawn reward, records it at the front of the capped history and
        starts its effect when it has a duration. */
    method OpenMysteryEgg(u1: real, u2: real, now: int) returns (reward: MysteryReward)
      requires Valid()
      requires IsUnitDraw(u1) && IsUnitDraw(u2)
      modifies this
      ensures Valid()
      ensures reward.rewardType in TableOrder && reward == RewardOf(reward.rewardType)
      ensures reward.rarity == RarityFor(u1 * 100.0)
      ensures currentReward == Some(reward) && showRewardPopup
      ensures rewardHistory == SlicePrefix([reward] + old(rewardHistory), HistoryCap)
      ensures rewardHistory[0] == reward && rewardHistory[1..] == old(rewardHistory)[..|rewardHistory| - 1]
      ensures !HasDuration(reward) ==> activeEffects == old(activeEffects)
      ensures HasDuration(reward) ==>
                activeEffects == old(activeEffects) + [ActiveEffect(reward, now + reward.duration.value)]
    {
      reward := GetRandomReward(u1, u2);
      ShowReward(reward, now);
    }

    /** What `openMysteryEgg` does with the drawn reward: the state update
        and the effect it starts. */
    method ShowReward(reward: MysteryReward, now: int)
      requires Valid()
      modifies this
      ensures Valid()
      ensures currentReward == Some(reward) && showRewardPopup
      ensures rewardHistory == SlicePrefix([reward] + old(rewardHistory), HistoryCap)
      ensures rewardHistory[0] == reward && rewardHistory[1..] == old(rewardHistory)[..|rewardHistory| - 1]
      ensures !HasDuration(reward) ==> activeEffects == old(activeEffects)
      ensures HasDuration(reward) ==>
                activeEffects == old(activeEffects) + [ActiveEffect(reward, now + reward.duration.value)]
    {
      PushCapped(reward, rewardHistory, HistoryCap);
      currentReward := Some(reward);
      rewardHistory := SlicePrefix([reward] + rewardHistory, HistoryCap);
      showRewardPopup := true;
      if HasDuration(reward) {
        AddActiveEffect(reward, now);
      }
    }

    /** The callback `openMysteryEgg` schedules two seconds later. */
    method HideRewardPopup()
      modifies this
      ensures !showRewardPopup
      ensures currentReward == old(currentReward) && rewardHistory == old(rewardHistory)
      ensures activeEffects == old(activeEffects)
    {
      showRewardPopup := false;
    }

    /** `clearCurrentReward()` */
    method ClearCurrentReward()
      modifies this
      ensures currentReward == None && !showRewardPopup
      ensures rewardHistory == old(rewardHistory) && activeEffects == old(activeEffects)
    {
      currentReward := None;
      showRewardPopup := false;
    }

    /** `updateActiveEffects()` at time `now`: drops the expired effects. */
    method UpdateActiveEffects(now: int)
      modifies this
      ensures activeEffects == Unexpired(old(activeEffects), now)
      ensures forall e :: e in activeEffects <==> e in old(activeEffects) && e.expiresAt > now
      ensures currentReward == old(currentReward) && rewardHistory == old(rewardHistory)
      ensures showRewardPopup == old(showRewardPopup)
    {
      activeEffects := Unexpired(activeEffects, now);
    }

    /** `hasActiveEffect(type)` at time `now`. */
    function HasActiveEffect(t: RewardType, now: int): (b: bool)
      reads this
      ensures b <==> exists i :: 0 <= i < |activeEffects|
                       && activeEffects[i].reward.rewardType == t && activeEffects[i].expiresAt > now
    {
      FirstActive(activeEffects, t, now).Some?
    }

    /** `getActiveEffectTimeRemaining(type)` at time `now`: the time left
        on the first unexpired effect of that type, 0 without one. */
    function GetActiveEffectTimeRemaining(t: RewardType, now: int): (ms: int)
      reads this
      ensures ms > 0 <==> HasActiveEffect(t, now)
      ensures ms >= 0
      ensures HasActiveEffect(t, now) ==> ms == FirstActive(activeEffects, t, now).value.expiresAt - now
    {
      match FirstActive(activeEffects, t, now)
      case None => 0
      case Some(e) => e.expiresAt - now
    }
  }
}
