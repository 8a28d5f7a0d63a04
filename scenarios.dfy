/** Worked examples of the economy: a first purchase, a per-second
    collection, an offline bonus asked for too early, and a batch of two
    breedings. */
module Scenarios {
  import opened Wrappers
  import opened Sets
  import opened Clock
  import opened Records
  import opened Ledger
  import opened Breeding
  import opened Bonuses
  import opened Registration

  /** A new player given 150 coins buys a first dog: the balance drops to
      50, the dog takes place 1 at level 1, the income rate grows by 3, and
      the preview dog's price becomes trunc(100 * 1.07) = 107. */
  lemma FirstPurchase(tgId: int, name: string, now: int)
    ensures var s := NewPlayer(tgId, name, now).(coins := 150);
            var (r, s') := CreateDog(s);
            && r == Ok(1)
            && s'.coins == 50
            && s'.coinsSpentToday == 100
            && s'.coinsInSecond == 3
            && s'.dogs[1] == Dog(1, 100, 70, 3, 0, Some(1), true)
            && s'.dogs[0].price == 107
            && ActiveCount(s'.dogs) == 1
  {
    var s := NewPlayer(tgId, name, now).(coins := 150);
    assert ActiveIds(s.dogs) == {};
    assert VirtualIds(s.dogs) == {0};
    assert SetMin({0}) == 0;
    assert FreeField(s.dogs) == Some(1) by {
      assert OccupiedFields(s.dogs) == {};
    }
    assert GetOrCreateVirtualDog(s) == (s, 0);
    var bought := Purchase(s, DefaultVirtualDog);
    assert CreateDog(s) == (Ok(1), UpdateVirtualDog(bought));
    assert ActiveIds(bought.dogs) == {1};
    assert VirtualIds(bought.dogs) == {0};
    assert GetOrCreateVirtualDog(bought) == (bought, 0);
    assert MaxActiveLevel(bought.dogs) == 1;
    assert LevelRule(DefaultVirtualDog, 1) == DefaultVirtualDog;
    assert GrownPrice(100, 70) == 107;
    var s' := bought.(dogs := bought.dogs[0 := DefaultVirtualDog.(price := 107)]);
    assert UpdateVirtualDog(bought) == s';
    assert s'.coins == 50;
    assert s'.coinsInSecond == 3;
    assert s'.dogs[1] == Dog(1, 100, 70, 3, 0, Some(1), true);
    assert s'.dogs[0].price == 107;
    assert ActiveIds(s'.dogs) == {1};
  }

  /** Five coins a second over ten seconds pay exactly 50 coins. */
  lemma TenSecondsAtFive(s: PlayerState, now: int)
    requires s.coinsInSecond == 5 && s.finishSecondCoins == Some(now - 10 * MicrosPerSecond)
    ensures GetBonus(s, false, true, now) == (Ok(s.coins + 50), s.(coins := s.coins + 50, finishSecondCoins := Some(now)))
  {
    assert WholeSecondsBetween(now - 10 * MicrosPerSecond, now) == 10;
  }

  /** Asking for the offline bonus before its window has closed is refused
      and changes nothing, whether or not the per-second bonus was asked
      for too. */
  lemma OfflineTooEarly(s: PlayerState, second: bool, now: int)
    requires s.finishOfflineCoins.Some? && now < s.finishOfflineCoins.value
    ensures GetBonus(s, true, second, now) == (Err(OfflineBonusNotReady), s)
  {
  }

  /** A pair of two active dogs of equal level, returned in id order: the
      lower id survives one level up, the higher one is removed. */
  lemma OrderedPair(s: PlayerState, x: DogId, y: DogId)
    requires PlayerValid(s)
    requires x < y && x in ActiveIds(s.dogs) && y in ActiveIds(s.dogs) && s.dogs[x].lvl == s.dogs[y].lvl
    ensures BreedPair(s, [x, y], false) == Ok((Merge(s, x, y), x))
    ensures PlayerValid(Merge(s, x, y))
    ensures ActiveIds(Merge(s, x, y).dogs) == ActiveIds(s.dogs) - {y}
    ensures ActiveCount(Merge(s, x, y).dogs) == ActiveCount(s.dogs) - 1
  {
    assert PairDogs(s.dogs, [x, y]) == {x, y};
    PairIsMinMax({x, y});
    MergeKeepsValid(s, x, y);
  }

  /** The loop part of `TwoPairs`: both pairs accepted, survivors in order. */
  lemma TwoPairsLoop(s: PlayerState, a: DogId, b: DogId, c: DogId, d: DogId)
    requires PlayerValid(s)
    requires a < b && c < d && a !in {c, d} && b !in {c, d}
    requires a in ActiveIds(s.dogs) && b in ActiveIds(s.dogs) && c in ActiveIds(s.dogs) && d in ActiveIds(s.dogs)
    requires s.dogs[a].lvl == 3 && s.dogs[b].lvl == 3 && s.dogs[c].lvl == 5 && s.dogs[d].lvl == 5
    ensures var s2 := Merge(Merge(s, a, b), c, d);
            && BreedFrom(s, [[a, b], [c, d]], {}, 0, []) == (Ok([a, c]), s2)
            && PlayerValid(s2)
            && ActiveCount(s2.dogs) == ActiveCount(s.dogs) - 2
            && a in ActiveIds(s2.dogs) && s2.dogs[a].lvl == 4
            && c in ActiveIds(s2.dogs) && s2.dogs[c].lvl == 6
            && b !in s2.dogs && d !in s2.dogs
            && s2.coinsInSecond == s.coinsInSecond + 3 + 5
            && s2.nextDogId == s.nextDogId
  {
    var pairs := [[a, b], [c, d]];
    OrderedPair(s, a, b);
    var s1 := Merge(s, a, b);
    OrderedPair(s1, c, d);
    var s2 := Merge(s1, c, d);
    assert [] + [a] == [a] && [a] + [c] == [a, c];
    assert BreedFrom(s2, pairs, {}, 2, [a, c]) == (Ok([a, c]), s2);
    assert BreedFrom(s1, pairs, {}, 1, [a]) == (Ok([a, c]), s2);
  }

  /** Breeding two level-3 dogs and then two level-5 dogs, with the rows
      returned in id order: the lower id of each pair survives at levels 4
      and 6, the other two are removed, and the income rate grows by 3 + 5. */
  lemma TwoPairs(s: PlayerState, a: DogId, b: DogId, c: DogId, d: DogId)
    requires PlayerValid(s)
    requires a < b && c < d && a !in {c, d} && b !in {c, d}
    requires a in ActiveIds(s.dogs) && b in ActiveIds(s.dogs) && c in ActiveIds(s.dogs) && d in ActiveIds(s.dogs)
    requires s.dogs[a].lvl == 3 && s.dogs[b].lvl == 3 && s.dogs[c].lvl == 5 && s.dogs[d].lvl == 5
    ensures var (r, s') := BreedDogs(s, [[a, b], [c, d]], {});
            && r == Ok([a, c])
            && a in s'.dogs && s'.dogs[a].lvl == 4
            && c in s'.dogs && s'.dogs[c].lvl == 6
            && b !in s'.dogs && d !in s'.dogs
            && ActiveCount(s'.dogs) == ActiveCount(s.dogs) - 2
            && s'.coinsInSecond == s.coinsInSecond + 3 + 5
  {
    TwoPairsLoop(s, a, b, c, d);
    var s2 := Merge(Merge(s, a, b), c, d);
    UpdateVirtualDogLevelKeepsValid(s2);
    assert b < s2.nextDogId && d < s2.nextDogId;
    assert GetOrCreateVirtualDog(s2).0.dogs.Keys <= s2.dogs.Keys + {s2.nextDogId};
  }
}
