/** The player row as an object whose methods update its fields in place,
    and the dog classmethods as methods over such an object. Each method is
    proved to leave the object in the state the matching function of the
    specification modules describes. */
module Models {
  import opened Wrappers
  import opened Sets
  import opened Clock
  import opened DailyBonuses
  import opened Records
  import Streak
  import Bonuses
  import Ledger
  import Breeding

  /** A player row and, in `dogs`, the player's dog rows keyed by id. */
  class Player {
    var tgId: int
    var name: string
    var coins: int
    var coinsSpentToday: int
    var dailyBonusFriends: int
    var consecutiveDays: int
    var lastLoginDate: Option<int>
    var offlineCoins: int
    var startOfflineCoins: Option<int>
    var finishOfflineCoins: Option<int>
    var coinsInSecond: int
    var finishSecondCoins: Option<int>
    var lvl: int
    var dailyBonus: bool
    var instruction: bool
    var dogs: map<DogId, Dog>
    var nextDogId: DogId

    /** The row's current values. */
    function State(): PlayerState
      reads this
    {
      PlayerState(tgId, name, coins, coinsSpentToday, dailyBonusFriends, consecutiveDays, lastLoginDate,
        offlineCoins, startOfflineCoins, finishOfflineCoins, coinsInSecond, finishSecondCoins, lvl,
        dailyBonus, instruction, dogs, nextDogId)
    }

    /** A new row with the column defaults. */
    constructor (tgId: int, name: string)
      ensures State() == NewPlayerRow(tgId, name)
    {
      this.tgId := tgId;
      this.name := name;
      coins := 0;
      coinsSpentToday := 0;
      dailyBonusFriends := 0;
      consecutiveDays := 0;
      lastLoginDate := None;
      offlineCoins := 0;
      startOfflineCoins := None;
      finishOfflineCoins := None;
      coinsInSecond := 0;
      finishSecondCoins := None;
      lvl := 1;
      dailyBonus := true;
      instruction := true;
      dogs := map[];
      nextDogId := 0;
    }

    /** The object the ORM loads from a stored row. */
    constructor Load(row: PlayerState)
      ensures State() == row
    {
      tgId, name, coins, coinsSpentToday, dailyBonusFriends, consecutiveDays, lastLoginDate :=
        row.tgId, row.name, row.coins, row.coinsSpentToday, row.dailyBonusFriends, row.consecutiveDays, row.lastLoginDate;
      offlineCoins, startOfflineCoins, finishOfflineCoins, coinsInSecond, finishSecondCoins :=
        row.offlineCoins, row.startOfflineCoins, row.finishOfflineCoins, row.coinsInSecond, row.finishSecondCoins;
      lvl, dailyBonus, instruction, dogs, nextDogId :=
        row.lvl, row.dailyBonus, row.instruction, row.dogs, row.nextDogId;
    }

    /** `update_daily_status` at instant `now`. */
    method UpdateDailyStatus(now: int, table: BonusTable)
      modifies this
      ensures State() == Streak.UpdateDailyStatus(old(State()), now, table)
    {
      var today := DateOf(now);
      if !dailyBonus {
        return;
      }
      if lastLoginDate.Some? {
        var daysDiff := today - lastLoginDate.value;
        consecutiveDays := if daysDiff == 1 then consecutiveDays + 1 else 1;
      } else {
        consecutiveDays := 1;
      }
      coins := coins + RewardFor(table, consecutiveDays);
      lastLoginDate := Some(today);
    }

    /** The scheduled reset of the daily bonus flag. */
    method ResetDailyBonus()
      modifies this
      ensures State() == Bonuses.ResetDailyBonus(old(State()))
    {
      dailyBonus := true;
    }
  }

  /** `get_or_create_virtual_dog`. */
  method GetOrCreateVirtualDog(p: Player) returns (id: DogId)
    modifies p
    ensures (p.State(), id) == Ledger.GetOrCreateVirtualDog(old(p.State()))
  {
    var virtual := VirtualIds(p.dogs);
    if virtual != {} {
      id := SetMin(virtual);
    } else {
      id := p.nextDogId;
      p.dogs := p.dogs[id := DefaultVirtualDog];
      p.nextDogId := p.nextDogId + 1;
    }
  }

  /** `find_free_field` over the player's dog rows `dogs`: collect the
      places of the active dogs, then scan places 1 to 12 for the first one
      not among them. */
  method FindFreeField(dogs: map<DogId, Dog>) returns (field: Option<int>)
    ensures field == FreeField(dogs)
  {
    var occupied: set<Option<int>> := {};
    var rest := ActiveIds(dogs);
    while rest != {}
      invariant rest <= ActiveIds(dogs)
      invariant forall id | id in ActiveIds(dogs) - rest :: dogs[id].field in occupied
      invariant occupied <= OccupiedFields(dogs)
      decreases |rest|
    {
      ghost var w := Pick(rest);
      var id :| id in rest;
      occupied := occupied + {dogs[id].field};
      rest := rest - {id};
    }
    assert occupied == OccupiedFields(dogs);
    var f := 1;
    while f <= FieldCount
      invariant 1 <= f <= FieldCount + 1
      invariant FreeFieldFrom(occupied, 1) == FreeFieldFrom(occupied, f)
    {
      if Some(f) !in occupied {
        return Some(f);
      }
      f := f + 1;
    }
    return None;
  }

  /** `create_dog`. */
  method CreateDog(p: Player) returns (r: Result<DogId, Ledger.LedgerError>)
    modifies p
    ensures (r, p.State()) == Ledger.CreateDog(old(p.State()))
  {
    if ActiveCount(p.dogs) >= FieldCount {
      return Err(Ledger.DogLimitReached);
    }
    var vid := GetOrCreateVirtualDog(p);
    var v := p.dogs[vid];
    if p.coins >= v.price {
      var id := p.nextDogId;
      Purchase(p, v);
      UpdateVirtualDog(p);
      return Ok(id);
    } else {
      return Err(Ledger.InsufficientCoins);
    }
  }

  /** The paying part of `create_dog`: debit the price of the preview dog
      `v`, count it as spent, add its per-second bonus to the income rate,
      then insert an active copy of it in the first free place. */
  method Purchase(p: Player, v: Dog)
    modifies p
    ensures p.State() == Ledger.Purchase(old(p.State()), v)
  {
    ghost var s := p.State();
    p.coins, p.coinsSpentToday, p.coinsInSecond :=
      p.coins - v.price, p.coinsSpentToday + v.price, p.coinsInSecond + v.bonusSecond;
    ghost var debited := p.State();
    assert debited == s.(coins := s.coins - v.price, coinsSpentToday := s.coinsSpentToday + v.price,
                         coinsInSecond := s.coinsInSecond + v.bonusSecond);
    var field := FindFreeField(p.dogs);
    var dog := Dog(v.lvl, v.price, v.percentTenths, v.bonusSecond, v.bonusConnection, field, true);
    assert debited.(dogs := debited.dogs[debited.nextDogId := dog], nextDogId := debited.nextDogId + 1)
        == Ledger.Purchase(s, v);
    InsertDog(p, dog);
  }

  /** `Dog.objects.acreate(player=player, ...)`: the row gets the next id. */
  method InsertDog(p: Player, dog: Dog)
    modifies p
    ensures p.State() == old(p.State()).(dogs := old(p.dogs)[old(p.nextDogId) := dog], nextDogId := old(p.nextDogId) + 1)
  {
    p.dogs, p.nextDogId := p.dogs[p.nextDogId := dog], p.nextDogId + 1;
  }

  /** `update_virtual_dog`. */
  method UpdateVirtualDog(p: Player)
    modifies p
    ensures p.State() == Ledger.UpdateVirtualDog(old(p.State()))
  {
    var vid := GetOrCreateVirtualDog(p);
    var v := p.dogs[vid];
    var maxLvl := MaxActiveLevel(p.dogs);
    if maxLvl >= v.lvl {
      var l := Ledger.NextVirtualLevel(maxLvl);
      v := v.(lvl := l, bonusSecond := v.bonusSecond * l, bonusConnection := l - 1);
    }
    v := v.(price := Ledger.GrownPrice(v.price, v.percentTenths));
    if v.lvl == 2 {
      v := v.(percentTenths := LevelTwoPercentTenths);
    }
    p.dogs := p.dogs[vid := v];
  }

  /** `update_virtual_dog_level`. */
  method UpdateVirtualDogLevel(p: Player)
    modifies p
    ensures p.State() == Ledger.UpdateVirtualDogLevel(old(p.State()))
  {
    var vid := GetOrCreateVirtualDog(p);
    var v := p.dogs[vid];
    var maxLvl := MaxActiveLevel(p.dogs);
    if maxLvl >= v.lvl {
      var l := Ledger.NextVirtualLevel(maxLvl);
      v := v.(lvl := l, bonusSecond := v.bonusSecond * l, bonusConnection := l - 1);
      if v.lvl == 2 {
        v := v.(percentTenths := LevelTwoPercentTenths);
      }
      p.dogs := p.dogs[vid := v];
    }
  }

  /** `breed_dogs`: the pairs in order, the survivors' ids in order; a
      refused pair ends the loop with the earlier pairs applied. The indices
      in `swapped` are the pairs whose rows the store returns higher id
      first. */
  method BreedDogs(p: Player, pairs: seq<seq<DogId>>, swapped: set<int>)
    returns (r: Result<seq<DogId>, Breeding.BreedError>)
    modifies p
    ensures (r, p.State()) == Breeding.BreedDogs(old(p.State()), pairs, swapped)
  {
    var upgraded: seq<DogId> := [];
    var i := 0;
    while i < |pairs|
      invariant 0 <= i <= |pairs|
      invariant Breeding.BreedFrom(old(p.State()), pairs, swapped, 0, [])
             == Breeding.BreedFrom(p.State(), pairs, swapped, i, upgraded)
    {
      ghost var s := p.State();
      var found := Breeding.PairDogs(p.dogs, pairs[i]);
      if |found| != 2 {
        return Err(Breeding.WrongDogCount(|found|));
      }
      var lo, hi := SetMin(found), SetMax(found);
      var toUpgrade, toDelete := if i in swapped then hi else lo, if i in swapped then lo else hi;
      if p.dogs[toUpgrade].lvl != p.dogs[toDelete].lvl {
        return Err(Breeding.LevelMismatch);
      }
      var up := p.dogs[toUpgrade].(lvl := p.dogs[toUpgrade].lvl + 1);
      p.dogs := (p.dogs - {toDelete})[toUpgrade := up];
      upgraded := upgraded + [toUpgrade];
      p.coinsInSecond := p.coinsInSecond + up.lvl - 1;
      assert Breeding.BreedPair(s, pairs[i], i in swapped) == Ok((p.State(), toUpgrade));
      i := i + 1;
    }
    UpdateVirtualDogLevel(p);
    return Ok(upgraded);
  }
}
