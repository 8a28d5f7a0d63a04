/** The dog classmethods of the store: the preview ("virtual") dog, the
    purchase of a dog and the two recomputations of the preview dog. */
module Ledger {
  import opened Wrappers
  import opened Sets
  import opened Numeric
  import opened Records

  /** The two `ValueError`s of `create_dog`. */
  datatype LedgerError = DogLimitReached | InsufficientCoins

  /** `get_or_create_virtual_dog`: the first inactive dog by id when there is
      one (the store unchanged), otherwise a new inactive dog with the column
      defaults under the next id. */
  function GetOrCreateVirtualDog(s: PlayerState): (r: (PlayerState, DogId))
    ensures r.1 in r.0.dogs && !r.0.dogs[r.1].isActive
    ensures VirtualIds(s.dogs) != {} ==>
              r.0 == s && r.1 in VirtualIds(s.dogs) && forall v | v in VirtualIds(s.dogs) :: r.1 <= v
    ensures VirtualIds(s.dogs) == {} ==>
              && r.1 == s.nextDogId
              && r.0 == s.(dogs := s.dogs[s.nextDogId := DefaultVirtualDog], nextDogId := s.nextDogId + 1)
  {
    var virtual := VirtualIds(s.dogs);
    if virtual != {} then (s, SetMin(virtual))
    else (s.(dogs := s.dogs[s.nextDogId := DefaultVirtualDog], nextDogId := s.nextDogId + 1), s.nextDogId)
  }

  /** The accessor is idempotent: asking again returns the same dog and
      creates nothing. */
  lemma VirtualDogIdempotent(s: PlayerState)
    ensures GetOrCreateVirtualDog(GetOrCreateVirtualDog(s).0) == GetOrCreateVirtualDog(s)
  {
    var (s1, vid) := GetOrCreateVirtualDog(s);
    if VirtualIds(s.dogs) == {} {
      forall id | id in VirtualIds(s1.dogs) ensures id == vid {
        assert id !in VirtualIds(s.dogs);
      }
      assert VirtualIds(s1.dogs) == {vid};
    }
  }

  /** On a valid player the accessor keeps the invariant, and afterwards the
      returned dog is the one and only preview dog. */
  lemma VirtualDogKeepsValid(s: PlayerState)
    requires PlayerValid(s)
    ensures PlayerValid(GetOrCreateVirtualDog(s).0)
    ensures VirtualIds(GetOrCreateVirtualDog(s).0.dogs) == {GetOrCreateVirtualDog(s).1}
    ensures ActiveIds(GetOrCreateVirtualDog(s).0.dogs) == ActiveIds(s.dogs)
    ensures forall id | id in ActiveIds(s.dogs) :: GetOrCreateVirtualDog(s).0.dogs[id] == s.dogs[id]
  {
    var (s1, vid) := GetOrCreateVirtualDog(s);
    if VirtualIds(s.dogs) == {} {
      assert s1.nextDogId !in s.dogs;
      forall id | id in VirtualIds(s1.dogs) ensures id == vid {
        assert id !in VirtualIds(s.dogs);
      }
      assert ActiveIds(s1.dogs) == ActiveIds(s.dogs);
    } else {
      forall id | id in VirtualIds(s.dogs) ensures id == vid { }
    }
  }

  /** Level of the next dog for sale given the highest active level:
      `m // 5 + 1` from level 5 on, 1 below. */
  function NextVirtualLevel(m: int): (l: int)
    ensures l >= 1
    ensures m >= 5 ==> 5 * (l - 1) <= m < 5 * l
    ensures m >= 1 ==> l <= m
    ensures m < 5 ==> l == 1
  {
    if m >= 5 then m / 5 + 1 else 1
  }

  /** The level step shared by both recomputations: when the highest active
      level `m` reaches the preview dog's level, the preview dog takes level
      `NextVirtualLevel(m)`, multiplies its per-second bonus by it and sets its
      breeding bonus to one less. */
  function LevelRule(v: Dog, m: int): (r: Dog)
    ensures m < v.lvl ==> r == v
    ensures m >= v.lvl ==> r.lvl == NextVirtualLevel(m) && r.bonusSecond == v.bonusSecond * r.lvl
                           && r.bonusConnection == r.lvl - 1
    ensures r.price == v.price && r.percentTenths == v.percentTenths && r.field == v.field
            && r.isActive == v.isActive
  {
    if m >= v.lvl then
      var l := NextVirtualLevel(m);
      v.(lvl := l, bonusSecond := v.bonusSecond * l, bonusConnection := l - 1)
    else v
  }

  /** `int(price * (1 + percent / 100))` with the percent in tenths: the
      price grown by the percent, truncated. */
  function GrownPrice(price: int, percentTenths: int): (p: int)
    ensures price >= 0 && percentTenths >= 0 ==>
              price <= p && p * 1000 <= price * (1000 + percentTenths) < (p + 1) * 1000
  {
    var q := TruncDiv(price * (1000 + percentTenths), 1000);
    assert price >= 0 && percentTenths >= 0 ==> price * 1000 <= price * (1000 + percentTenths);
    q
  }

  /** `update_virtual_dog`: the level step, then the price always grows by the
      (old) percent, then the percent becomes 17.5 if the level is 2. */
  function UpdateVirtualDog(s: PlayerState): (r: PlayerState)
    // only the preview dog changes; it takes the level step, and 17.5 percent at level 2
    ensures var (s1, vid) := GetOrCreateVirtualDog(s);
            var v := s1.dogs[vid];
            var m := MaxActiveLevel(s1.dogs);
            && vid in r.dogs
            && r == s1.(dogs := s1.dogs[vid := r.dogs[vid]])
            && !r.dogs[vid].isActive
            && r.dogs[vid].lvl == (if m >= v.lvl then NextVirtualLevel(m) else v.lvl)
            && r.dogs[vid].percentTenths == (if r.dogs[vid].lvl == 2 then LevelTwoPercentTenths else v.percentTenths)
            && r.dogs[vid].price == GrownPrice(v.price, v.percentTenths)
            && r.dogs[vid] == LevelRule(v, m).(price := r.dogs[vid].price, percentTenths := r.dogs[vid].percentTenths)
  {
    var (s1, vid) := GetOrCreateVirtualDog(s);
    var v := LevelRule(s1.dogs[vid], MaxActiveLevel(s1.dogs));
    var priced := v.(price := GrownPrice(v.price, v.percentTenths));
    var fixed := if priced.lvl == 2 then priced.(percentTenths := LevelTwoPercentTenths) else priced;
    s1.(dogs := s1.dogs[vid := fixed])
  }

  /** `update_virtual_dog_level`: the level step alone (and the 17.5 percent
      for level 2 inside it); the price is never touched. */
  function UpdateVirtualDogLevel(s: PlayerState): (r: PlayerState)
    // only the preview dog changes; once the highest active level reaches it,
    // it takes the next level, and 17.5 percent at level 2
    ensures var (s1, vid) := GetOrCreateVirtualDog(s);
            var v := s1.dogs[vid];
            var m := MaxActiveLevel(s1.dogs);
            && vid in r.dogs
            && r == s1.(dogs := s1.dogs[vid := r.dogs[vid]])
            && !r.dogs[vid].isActive
            && (m >= v.lvl ==> r.dogs[vid].lvl == NextVirtualLevel(m))
            && (m >= v.lvl && r.dogs[vid].lvl == 2 ==> r.dogs[vid].percentTenths == LevelTwoPercentTenths)
            && r.dogs[vid] == LevelRule(v, m).(percentTenths := r.dogs[vid].percentTenths)
            && r.dogs[vid].percentTenths == (if m >= v.lvl && NextVirtualLevel(m) == 2 then LevelTwoPercentTenths else v.percentTenths)
  {
    var (s1, vid) := GetOrCreateVirtualDog(s);
    var v := s1.dogs[vid];
    var m := MaxActiveLevel(s1.dogs);
    if m >= v.lvl then
      var stepped := LevelRule(v, m);
      var fixed := if stepped.lvl == 2 then stepped.(percentTenths := LevelTwoPercentTenths) else stepped;
      s1.(dogs := s1.dogs[vid := fixed])
    else s1
  }

  /** The price recomputation touches only the preview dog, and its price
      grows by its percent; with non-negative values it never decreases. */
  lemma VirtualPriceNeverDecreases(s: PlayerState)
    requires PlayerValid(s)
    ensures var (s1, vid) := GetOrCreateVirtualDog(s);
            var r := UpdateVirtualDog(s);
            && vid in r.dogs
            && r.dogs == s1.dogs[vid := r.dogs[vid]]
            && r.dogs[vid].price == GrownPrice(s1.dogs[vid].price, s1.dogs[vid].percentTenths)
            && r.dogs[vid].price >= s1.dogs[vid].price
  {
    VirtualDogKeepsValid(s);
  }

  /** The level recomputation never changes any price, and changes nothing
      at all when every active dog is below the preview dog's level. */
  lemma LevelRecomputeKeepsPrice(s: PlayerState)
    ensures var (s1, vid) := GetOrCreateVirtualDog(s);
            var r := UpdateVirtualDogLevel(s);
            && r.dogs == s1.dogs[vid := r.dogs[vid]]
            && r.dogs[vid].price == s1.dogs[vid].price
            && (MaxActiveLevel(s1.dogs) < s1.dogs[vid].lvl ==> r == s1)
  {
  }

  /** The per-second bonus of the preview dog compounds: while the highest
      active level stays between 5 and 9, every price recomputation finds it
      at or above the preview dog's level 2 and doubles the bonus again. */
  lemma VirtualBonusCompounds(s: PlayerState)
    requires PlayerValid(s)
    requires var (s1, vid) := GetOrCreateVirtualDog(s);
             s1.dogs[vid].lvl == 2 && 5 <= MaxActiveLevel(s1.dogs) <= 9
    ensures var (s1, vid) := GetOrCreateVirtualDog(s);
            var (s2, vid2) := GetOrCreateVirtualDog(UpdateVirtualDog(s));
            && vid2 == vid
            && s2.dogs[vid].lvl == 2
            && s2.dogs[vid].bonusSecond == 2 * s1.dogs[vid].bonusSecond
  {
    VirtualDogKeepsValid(s);
    UpdateVirtualDogKeepsValid(s);
    var (s1, vid) := GetOrCreateVirtualDog(s);
    var r := UpdateVirtualDog(s);
    assert VirtualIds(r.dogs) == VirtualIds(s1.dogs);
  }

  /** Replacing the preview dog by another valid inactive row keeps the
      invariant and the active dogs. */
  lemma ReplaceVirtualKeepsValid(s: PlayerState, vid: DogId, d: Dog)
    requires PlayerValid(s)
    requires vid in VirtualIds(s.dogs)
    requires DogValid(d) && !d.isActive
    ensures PlayerValid(s.(dogs := s.dogs[vid := d]))
    ensures ActiveIds(s.dogs[vid := d]) == ActiveIds(s.dogs)
    ensures VirtualIds(s.dogs[vid := d]) == VirtualIds(s.dogs)
    ensures forall id | id in ActiveIds(s.dogs) :: s.dogs[vid := d][id] == s.dogs[id]
  {
    var dogs := s.dogs[vid := d];
    assert ActiveIds(dogs) == ActiveIds(s.dogs);
    assert VirtualIds(dogs) == VirtualIds(s.dogs);
  }

  lemma {:induction false} LevelRuleKeepsDogValid(v: Dog, m: int)
    requires DogValid(v)
    ensures DogValid(LevelRule(v, m))
  {
    if m >= v.lvl {
      var l := NextVirtualLevel(m);
      assert v.bonusSecond * l >= 0;
    }
  }

  /** The price recomputation keeps the invariant and the active dogs. */
  lemma UpdateVirtualDogKeepsValid(s: PlayerState)
    requires PlayerValid(s)
    ensures PlayerValid(UpdateVirtualDog(s))
    ensures ActiveIds(UpdateVirtualDog(s).dogs) == ActiveIds(s.dogs)
    ensures forall id | id in ActiveIds(s.dogs) :: UpdateVirtualDog(s).dogs[id] == s.dogs[id]
  {
    VirtualDogKeepsValid(s);
    var (s1, vid) := GetOrCreateVirtualDog(s);
    LevelRuleKeepsDogValid(s1.dogs[vid], MaxActiveLevel(s1.dogs));
    var v := LevelRule(s1.dogs[vid], MaxActiveLevel(s1.dogs));
    var priced := v.(price := GrownPrice(v.price, v.percentTenths));
    var fixed := if priced.lvl == 2 then priced.(percentTenths := LevelTwoPercentTenths) else priced;
    ReplaceVirtualKeepsValid(s1, vid, fixed);
  }

  /** The level recomputation keeps the invariant and the active dogs. */
  lemma UpdateVirtualDogLevelKeepsValid(s: PlayerState)
    requires PlayerValid(s)
    ensures PlayerValid(UpdateVirtualDogLevel(s))
    ensures ActiveIds(UpdateVirtualDogLevel(s).dogs) == ActiveIds(s.dogs)
    ensures forall id | id in ActiveIds(s.dogs) :: UpdateVirtualDogLevel(s).dogs[id] == s.dogs[id]
  {
    VirtualDogKeepsValid(s);
    var (s1, vid) := GetOrCreateVirtualDog(s);
    var v := s1.dogs[vid];
    var m := MaxActiveLevel(s1.dogs);
    if m >= v.lvl {
      LevelRuleKeepsDogValid(v, m);
      var stepped := LevelRule(v, m);
      var fixed := if stepped.lvl == 2 then stepped.(percentTenths := LevelTwoPercentTenths) else stepped;
      ReplaceVirtualKeepsValid(s1, vid, fixed);
    }
  }

  /** The debit and the insertion of `create_dog` (before the preview dog is
      recomputed): `v` is the preview dog being bought. */
  function Purchase(s: PlayerState, v: Dog): (r: PlayerState)
    ensures r.coins == s.coins - v.price && r.coinsSpentToday == s.coinsSpentToday + v.price
    ensures r.coinsInSecond == s.coinsInSecond + v.bonusSecond
    ensures r.dogs.Keys == s.dogs.Keys + {s.nextDogId} && r.nextDogId == s.nextDogId + 1
    ensures r.dogs[s.nextDogId].isActive && r.dogs[s.nextDogId].field == FreeField(s.dogs)
    ensures r.dogs[s.nextDogId].lvl == v.lvl && r.dogs[s.nextDogId].price == v.price
    ensures forall id | id in s.dogs && id != s.nextDogId :: r.dogs[id] == s.dogs[id]
    // only the three saved player columns and the dog table change
    ensures r == s.(coins := r.coins, coinsSpentToday := r.coinsSpentToday, coinsInSecond := r.coinsInSecond,
                    dogs := r.dogs, nextDogId := r.nextDogId)
  {
    var dog := Dog(v.lvl, v.price, v.percentTenths, v.bonusSecond, v.bonusConnection, FreeField(s.dogs), true);
    s.(coins := s.coins - v.price,
       coinsSpentToday := s.coinsSpentToday + v.price,
       coinsInSecond := s.coinsInSecond + v.bonusSecond,
       dogs := s.dogs[s.nextDogId := dog],
       nextDogId := s.nextDogId + 1)
  }

  /** `create_dog`: refuse at twelve active dogs; fetch the preview dog;
      refuse when the balance is below its price; otherwise debit the price,
      count it as spent, add the preview dog's per-second bonus to the income
      rate, insert an active copy of the preview dog in the first free place
      and recompute the preview dog with its price. */
  function CreateDog(s: PlayerState): (r: (Result<DogId, LedgerError>, PlayerState))
    // a successful purchase leaves an active dog under the returned id, paid for
    // with exactly its price
    ensures r.0.Ok? ==> && r.0.value in r.1.dogs && r.1.dogs[r.0.value].isActive
                        && r.1.coins == s.coins - r.1.dogs[r.0.value].price
    ensures r.0 == Err(DogLimitReached) ==> r.1 == s
  {
    if ActiveCount(s.dogs) >= FieldCount then (Err(DogLimitReached), s)
    else
      var (s1, vid) := GetOrCreateVirtualDog(s);
      var v := s1.dogs[vid];
      if s1.coins >= v.price then (Ok(s1.nextDogId), UpdateVirtualDog(Purchase(s1, v)))
      else (Err(InsufficientCoins), s1)
  }

  /** The refusals of `create_dog`: at twelve active dogs nothing happens;
      with too few coins only the preview dog may have been created. On a
      player that already has a preview dog, a refusal changes nothing. */
  lemma CreateDogRefusals(s: PlayerState)
    ensures var (r, s') := CreateDog(s);
            var (s1, vid) := GetOrCreateVirtualDog(s);
            && (r == Err(DogLimitReached) <==> ActiveCount(s.dogs) >= FieldCount)
            && (r == Err(InsufficientCoins) <==>
                  ActiveCount(s.dogs) < FieldCount && s1.coins < s1.dogs[vid].price)
            && (r == Err(DogLimitReached) ==> s' == s)
            && (r == Err(InsufficientCoins) ==> s' == s1)
            && (r.Err? && VirtualIds(s.dogs) != {} ==> s' == s)
  {
  }

  /** Inserting an active valid dog under the next id, in a place no active
      dog holds, keeps the dog table valid and adds exactly that dog. */
  lemma {:induction false} InsertActiveKeepsValid(dogs: map<DogId, Dog>, nextId: DogId, dog: Dog)
    requires LedgerValid(dogs, nextId)
    requires DogValid(dog) && dog.isActive && dog.field !in OccupiedFields(dogs)
    ensures LedgerValid(dogs[nextId := dog], nextId + 1)
    ensures ActiveIds(dogs[nextId := dog]) == ActiveIds(dogs) + {nextId}
    ensures VirtualIds(dogs[nextId := dog]) == VirtualIds(dogs)
  {
    var after := dogs[nextId := dog];
    assert nextId !in dogs;
    assert ActiveIds(after) == ActiveIds(dogs) + {nextId};
    assert VirtualIds(after) == VirtualIds(dogs);
    forall a, b | a in ActiveIds(after) && b in ActiveIds(after) && a != b
      ensures after[a].field != after[b].field
    {
      if a == nextId {
        assert after[b].field in OccupiedFields(dogs);
      } else if b == nextId {
        assert after[a].field in OccupiedFields(dogs);
      }
    }
  }

  /** The purchase step on a valid player with a free place and enough
      coins keeps the invariant and adds exactly one active dog. */
  lemma {:induction false} PurchaseKeepsValid(s: PlayerState, vid: DogId)
    requires PlayerValid(s)
    requires vid in VirtualIds(s.dogs)
    requires ActiveCount(s.dogs) < FieldCount && s.coins >= s.dogs[vid].price
    ensures PlayerValid(Purchase(s, s.dogs[vid]))
    ensures ActiveIds(Purchase(s, s.dogs[vid]).dogs) == ActiveIds(s.dogs) + {s.nextDogId}
    ensures VirtualIds(Purchase(s, s.dogs[vid]).dogs) == VirtualIds(s.dogs)
  {
    var v := s.dogs[vid];
    FreeFieldNoneIffFull(s.dogs, s.nextDogId);
    var dog := Dog(v.lvl, v.price, v.percentTenths, v.bonusSecond, v.bonusConnection, FreeField(s.dogs), true);
    InsertActiveKeepsValid(s.dogs, s.nextDogId, dog);
  }

  /** A purchase keeps the player's invariant; a successful one adds exactly
      one active dog, so the active count grows by one and stays within
      twelve, and the dogs already on the field are untouched. */
  lemma CreateDogKeepsValid(s: PlayerState)
    requires PlayerValid(s)
    ensures var (r, s') := CreateDog(s);
            && PlayerValid(s')
            && (r.Ok? ==>
                  && r.value !in s.dogs
                  && ActiveIds(s'.dogs) == ActiveIds(s.dogs) + {r.value}
                  && ActiveCount(s'.dogs) == ActiveCount(s.dogs) + 1 <= FieldCount
                  && forall id | id in ActiveIds(s.dogs) :: s'.dogs[id] == s.dogs[id])
  {
    VirtualDogKeepsValid(s);
    var (s1, vid) := GetOrCreateVirtualDog(s);
    if ActiveCount(s.dogs) < FieldCount && s1.coins >= s1.dogs[vid].price {
      PurchaseKeepsValid(s1, vid);
      var s2 := Purchase(s1, s1.dogs[vid]);
      UpdateVirtualDogKeepsValid(s2);
      var s' := UpdateVirtualDog(s2);
      assert CreateDog(s) == (Ok(s1.nextDogId), s');
      ActiveAtMostFieldCount(s'.dogs, s'.nextDogId);
      assert s1.nextDogId !in s.dogs;
    }
  }

  /** The accounting of a successful purchase: the balance drops by exactly
      the preview dog's price and stays non-negative, the spent-today counter
      grows by the price and the income rate by the preview dog's per-second
      bonus; the new dog is an active copy of the preview dog's stats in the
      first place that was free. */
  lemma CreateDogAccounting(s: PlayerState)
    requires PlayerValid(s)
    requires CreateDog(s).0.Ok?
    ensures var (r, s') := CreateDog(s);
            var (s1, vid) := GetOrCreateVirtualDog(s);
            var v := s1.dogs[vid];
            && s'.coins == s.coins - v.price >= 0
            && s'.coinsSpentToday == s.coinsSpentToday + v.price
            && s'.coinsInSecond == s.coinsInSecond + v.bonusSecond
            && s'.dogs[r.value] == Dog(v.lvl, v.price, v.percentTenths, v.bonusSecond,
                                        v.bonusConnection, FreeField(s.dogs), true)
            && FreeField(s.dogs).Some?
            && FreeField(s.dogs) !in OccupiedFields(s.dogs)
            && s' == s.(coins := s'.coins, coinsSpentToday := s'.coinsSpentToday, coinsInSecond := s'.coinsInSecond,
                        dogs := s'.dogs, nextDogId := s'.nextDogId)
  {
    VirtualDogKeepsValid(s);
    var (s1, vid) := GetOrCreateVirtualDog(s);
    FreeFieldNoneIffFull(s.dogs, s.nextDogId);
    assert OccupiedFields(s1.dogs) == OccupiedFields(s.dogs);
    PurchaseKeepsValid(s1, vid);
    var s2 := Purchase(s1, s1.dogs[vid]);
    UpdateVirtualDogKeepsValid(s2);
    assert s1.nextDogId in ActiveIds(s2.dogs);
    assert s1 == s.(dogs := s1.dogs, nextDogId := s1.nextDogId);
  }

  /** Inserting the bought dog leaves the preview dogs as they were. */
  lemma PurchaseKeepsPreview(s: PlayerState, vid: DogId)
    requires PlayerValid(s)
    requires vid in VirtualIds(s.dogs)
    ensures var s2 := Purchase(s, s.dogs[vid]);
            VirtualIds(s2.dogs) == VirtualIds(s.dogs) && s2.dogs[vid] == s.dogs[vid]
  {
    assert s.nextDogId !in s.dogs;
  }

  /** The price recomputation keeps the preview dog's id: asking for the
      preview dog afterwards returns the same one and creates nothing. */
  lemma UpdateVirtualDogKeepsPreviewId(s: PlayerState)
    requires PlayerValid(s)
    ensures GetOrCreateVirtualDog(UpdateVirtualDog(s)) == (UpdateVirtualDog(s), GetOrCreateVirtualDog(s).1)
  {
    VirtualDogKeepsValid(s);
    var (s1, vid) := GetOrCreateVirtualDog(s);
    var r := UpdateVirtualDog(s);
    assert VirtualIds(r.dogs) == {vid};
  }

  /** A purchase grows the preview dog's price: the preview dog keeps its id
      (an existing one, or the one created for the purchase), and its price
      becomes the old price grown by its percent, never less than before. */
  lemma CreateDogGrowsPreviewPrice(s: PlayerState)
    requires PlayerValid(s)
    requires CreateDog(s).0.Ok?
    ensures var (s1, vid) := GetOrCreateVirtualDog(s);
            var s' := CreateDog(s).1;
            && GetOrCreateVirtualDog(s') == (s', vid)
            && s'.dogs[vid].price == GrownPrice(s1.dogs[vid].price, s1.dogs[vid].percentTenths)
            && s'.dogs[vid].price >= s1.dogs[vid].price
  {
    VirtualDogKeepsValid(s);
    var (s1, vid) := GetOrCreateVirtualDog(s);
    PurchaseKeepsValid(s1, vid);
    PurchaseKeepsPreview(s1, vid);
    var s2 := Purchase(s1, s1.dogs[vid]);
    assert GetOrCreateVirtualDog(s2) == (s2, vid);
    VirtualPriceNeverDecreases(s2);
    UpdateVirtualDogKeepsPreviewId(s2);
  }
}
