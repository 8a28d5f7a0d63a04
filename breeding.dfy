/** `Dog.breed_dogs` and the empty-list guard of the breeding request. */
module Breeding {
  import opened Wrappers
  import opened Sets
  import opened Records
  import opened Ledger

  /** The two `ValueError`s of `breed_dogs`. */
  datatype BreedError = WrongDogCount(found: nat) | LevelMismatch

  /** What the breeding request reports: the empty-list refusal of the
      handler, or a refusal of `breed_dogs`. */
  datatype BreedRequestError = NoPairs | Refused(reason: BreedError)

  /** `Dog.objects.filter(id__in=ids, player=player, is_active=True)`: the
      active dogs of the player whose ids are listed. */
  function PairDogs(dogs: map<DogId, Dog>, ids: seq<DogId>): set<DogId> {
    set id | id in ids && id in dogs && dogs[id].isActive
  }

  /** One pair of `breed_dogs`. The ids must name exactly two active dogs of
      the player, of equal level. The store returns them in an order the
      source does not fix: `swap` says whether the higher id comes first. The
      first one gains a level, the second is deleted, and the income rate
      grows by the new level minus one. */
  function BreedPair(s: PlayerState, ids: seq<DogId>, swap: bool): (r: Result<(PlayerState, DogId), BreedError>)
    // an accepted pair names two active dogs; the survivor is one of them and gains a level
    ensures r.Ok? ==> && |PairDogs(s.dogs, ids)| == 2 && r.value.1 in PairDogs(s.dogs, ids)
                      && r.value.1 in r.value.0.dogs
                      && r.value.0.dogs[r.value.1].lvl == s.dogs[r.value.1].lvl + 1
  {
    var found := PairDogs(s.dogs, ids);
    if |found| != 2 then Err(WrongDogCount(|found|))
    else
      var lo, hi := SetMin(found), SetMax(found);
      if s.dogs[lo].lvl != s.dogs[hi].lvl then Err(LevelMismatch)
      else
        var keep, drop := if swap then hi else lo, if swap then lo else hi;
        Ok((Merge(s, keep, drop), keep))
  }

  /** The effect of an accepted pair: `keep` gains a level, `drop` is
      deleted, the income rate grows by the new level minus one. */
  function Merge(s: PlayerState, keep: DogId, drop: DogId): (r: PlayerState)
    requires keep in s.dogs
    ensures r.dogs.Keys == (s.dogs.Keys - {drop}) + {keep}
    ensures r.dogs[keep] == s.dogs[keep].(lvl := s.dogs[keep].lvl + 1)
    ensures r.coinsInSecond == s.coinsInSecond + s.dogs[keep].lvl
    ensures r == s.(dogs := r.dogs, coinsInSecond := r.coinsInSecond)
  {
    var up := s.dogs[keep].(lvl := s.dogs[keep].lvl + 1);
    s.(dogs := (s.dogs - {drop})[keep := up], coinsInSecond := s.coinsInSecond + up.lvl - 1)
  }

  /** The loop of `breed_dogs` from pair `i` on, with the survivors so far in
      `acc`; `swapped` holds the indices of the pairs whose rows come back
      higher id first. A refused pair stops the loop with the pairs before it
      already applied. */
  function BreedFrom(s: PlayerState, pairs: seq<seq<DogId>>, swapped: set<int>, i: nat, acc: seq<DogId>)
    : (r: (Result<seq<DogId>, BreedError>, PlayerState))
    requires i <= |pairs|
    // no id is allocated
    ensures r.1.nextDogId == s.nextDogId
    decreases |pairs| - i
  {
    if i == |pairs| then (Ok(acc), s)
    else
      match BreedPair(s, pairs[i], i in swapped)
      case Err(e) => (Err(e), s)
      case Ok((s1, keep)) => BreedFrom(s1, pairs, swapped, i + 1, acc + [keep])
  }

  /** `breed_dogs`: all pairs in order, then the level-only recomputation of
      the preview dog, which a refusal skips. */
  function BreedDogs(s: PlayerState, pairs: seq<seq<DogId>>, swapped: set<int>)
    : (r: (Result<seq<DogId>, BreedError>, PlayerState))
    // only the recomputation may allocate an id, for a new preview dog
    ensures r.1.nextDogId <= s.nextDogId + 1
    ensures r.0.Err? ==> r.1.nextDogId == s.nextDogId
  {
    var (r, s1) := BreedFrom(s, pairs, swapped, 0, []);
    if r.Ok? then (r, UpdateVirtualDogLevel(s1)) else (r, s1)
  }

  /** The breeding request: an empty list of pairs is refused before
      `breed_dogs` runs, so nothing changes and no recomputation happens. */
  function BreedRequest(s: PlayerState, pairs: seq<seq<DogId>>, swapped: set<int>)
    : (r: (Result<seq<DogId>, BreedRequestError>, PlayerState))
    ensures pairs == [] ==> r == (Err(NoPairs), s)
    ensures pairs != [] ==> r.1 == BreedDogs(s, pairs, swapped).1
    ensures pairs != [] ==> (r.0.Ok? <==> BreedDogs(s, pairs, swapped).0.Ok?)
    ensures pairs != [] && r.0.Ok? ==> r.0.value == BreedDogs(s, pairs, swapped).0.value
    ensures pairs != [] && r.0.Err? ==> r.0.error == Refused(BreedDogs(s, pairs, swapped).0.error)
  {
    if pairs == [] then (Err(NoPairs), s)
    else
      var (r, s1) := BreedDogs(s, pairs, swapped);
      match r
      case Ok(up) => (Ok(up), s1)
      case Err(e) => (Err(Refused(e)), s1)
  }

  /** Merging two distinct active dogs keeps the invariant, removes exactly
      the dropped dog and lowers the active count by one. */
  lemma {:induction false} MergeKeepsValid(s: PlayerState, keep: DogId, drop: DogId)
    requires PlayerValid(s)
    requires keep in ActiveIds(s.dogs) && drop in ActiveIds(s.dogs) && keep != drop
    ensures PlayerValid(Merge(s, keep, drop))
    ensures ActiveIds(Merge(s, keep, drop).dogs) == ActiveIds(s.dogs) - {drop}
    ensures ActiveCount(Merge(s, keep, drop).dogs) == ActiveCount(s.dogs) - 1
  {
    var dogs := Merge(s, keep, drop).dogs;
    assert ActiveIds(dogs) == ActiveIds(s.dogs) - {drop};
    assert VirtualIds(dogs) == VirtualIds(s.dogs);
    assert PlacesDistinct(dogs) by {
      forall a, b | a in ActiveIds(dogs) && b in ActiveIds(dogs) && a != b
        ensures dogs[a].field != dogs[b].field
      {
        assert a in ActiveIds(s.dogs) && b in ActiveIds(s.dogs);
      }
    }
  }

  /** A merge leaves every row other than `keep` and `drop` as it was. */
  lemma MergeRows(s: PlayerState, keep: DogId, drop: DogId)
    requires keep in s.dogs
    ensures forall id | id in s.dogs && id != keep && id != drop :: Merge(s, keep, drop).dogs[id] == s.dogs[id]
  {
  }

  /** The effect of merging two distinct active dogs, in the terms of an
      accepted pair: only the dropped row goes, every other row but the
      survivor stays, the active count drops by one, the income rate grows by
      the survivor's new level minus one, and the invariant holds. */
  lemma MergeEffect(s: PlayerState, keep: DogId, drop: DogId)
    requires PlayerValid(s)
    requires keep in ActiveIds(s.dogs) && drop in ActiveIds(s.dogs) && keep != drop
    ensures var s' := Merge(s, keep, drop);
            && s'.dogs.Keys == s.dogs.Keys - {drop}
            && (forall id | id in s.dogs && id != keep && id != drop :: s'.dogs[id] == s.dogs[id])
            && ActiveCount(s'.dogs) == ActiveCount(s.dogs) - 1
            && s'.coinsInSecond == s.coinsInSecond + s'.dogs[keep].lvl - 1
            && PlayerValid(s')
  {
    MergeKeepsValid(s, keep, drop);
    MergeRows(s, keep, drop);
  }

  /** One accepted or refused pair. A pair is accepted exactly when its ids
      name two active dogs of equal level. Then the first dog returned gains
      one level, the other is deleted (its place is freed), every other row
      stays as it was, the active count drops by one, the income rate grows
      by the new level minus one, and the invariant holds. */
  lemma BreedPairEffect(s: PlayerState, ids: seq<DogId>, swap: bool)
    requires PlayerValid(s)
    ensures var found := PairDogs(s.dogs, ids);
            var r := BreedPair(s, ids, swap);
            && (r.Ok? <==> |found| == 2 && forall a, b | a in found && b in found :: s.dogs[a].lvl == s.dogs[b].lvl)
            && (r.Ok? ==>
                  var (s', keep) := r.value;
                  && keep in found
                  && s'.dogs.Keys == s.dogs.Keys - (found - {keep})
                  && s'.dogs[keep] == s.dogs[keep].(lvl := s.dogs[keep].lvl + 1)
                  && (forall id | id in s.dogs && id !in found :: s'.dogs[id] == s.dogs[id])
                  && ActiveCount(s'.dogs) == ActiveCount(s.dogs) - 1
                  && s'.coinsInSecond == s.coinsInSecond + s'.dogs[keep].lvl - 1
                  && s' == s.(dogs := s'.dogs, coinsInSecond := s'.coinsInSecond)
                  && PlayerValid(s'))
  {
    var found := PairDogs(s.dogs, ids);
    if |found| == 2 {
      PairIsMinMax(found);
      var lo, hi := SetMin(found), SetMax(found);
      if s.dogs[lo].lvl == s.dogs[hi].lvl {
        var keep, drop := if swap then hi else lo, if swap then lo else hi;
        assert found == {keep, drop};
        MergeEffect(s, keep, drop);
      }
    }
  }

  /** The two refusals of a pair: the number of dogs found when it is not
      two, and the level mismatch when the two dogs found differ in level. */
  lemma BreedPairRefusals(s: PlayerState, ids: seq<DogId>, swap: bool)
    ensures var found := PairDogs(s.dogs, ids);
            && (|found| != 2 ==> BreedPair(s, ids, swap) == Err(WrongDogCount(|found|)))
            && (|found| == 2 && (exists a, b | a in found && b in found :: s.dogs[a].lvl != s.dogs[b].lvl) ==>
                  BreedPair(s, ids, swap) == Err(LevelMismatch))
  {
    var found := PairDogs(s.dogs, ids);
    if |found| == 2 {
      PairIsMinMax(found);
    }
  }

  /** The loop over the pairs keeps the invariant. When every pair from `i`
      on is accepted, each of them contributes one survivor and removes one
      active dog, and the income rate never decreases. */
  lemma {:induction false} BreedFromKeepsValid(
    s: PlayerState, pairs: seq<seq<DogId>>, swapped: set<int>, i: nat, acc: seq<DogId>)
    requires i <= |pairs|
    requires PlayerValid(s)
    ensures var (r, s') := BreedFrom(s, pairs, swapped, i, acc);
            && PlayerValid(s')
            && s'.coinsInSecond >= s.coinsInSecond
            && (r.Ok? ==>
                  && |r.value| == |acc| + (|pairs| - i)
                  && r.value[..|acc|] == acc
                  && ActiveCount(s'.dogs) + (|pairs| - i) == ActiveCount(s.dogs))
    decreases |pairs| - i
  {
    if i < |pairs| {
      BreedPairEffect(s, pairs[i], i in swapped);
      match BreedPair(s, pairs[i], i in swapped)
      case Err(_) =>
      case Ok((s1, keep)) =>
        BreedFromKeepsValid(s1, pairs, swapped, i + 1, acc + [keep]);
        var (r, s') := BreedFrom(s1, pairs, swapped, i + 1, acc + [keep]);
        if r.Ok? {
          assert r.value[..|acc|] == (acc + [keep])[..|acc|];
        }
    }
  }

  /** `breed_dogs` keeps the invariant; when it succeeds there is one
      survivor per pair and the active count has dropped by the number of
      pairs. */
  lemma BreedDogsEffect(s: PlayerState, pairs: seq<seq<DogId>>, swapped: set<int>)
    requires PlayerValid(s)
    ensures var (r, s') := BreedDogs(s, pairs, swapped);
            && PlayerValid(s')
            && s'.coinsInSecond >= s.coinsInSecond
            && (r.Ok? ==> |r.value| == |pairs| && ActiveCount(s'.dogs) + |pairs| == ActiveCount(s.dogs))
  {
    BreedFromKeepsValid(s, pairs, swapped, 0, []);
    var (r, s1) := BreedFrom(s, pairs, swapped, 0, []);
    if r.Ok? {
      UpdateVirtualDogLevelKeepsValid(s1);
    }
  }

  /** The loop creates no row: it only upgrades and deletes. */
  lemma {:induction false} BreedFromCreatesNoRow(
    s: PlayerState, pairs: seq<seq<DogId>>, swapped: set<int>, i: nat, acc: seq<DogId>)
    requires i <= |pairs|
    ensures BreedFrom(s, pairs, swapped, i, acc).1.dogs.Keys <= s.dogs.Keys
    decreases |pairs| - i
  {
    if i < |pairs| {
      match BreedPair(s, pairs[i], i in swapped)
      case Err(_) =>
      case Ok((s1, keep)) =>
        BreedFromCreatesNoRow(s1, pairs, swapped, i + 1, acc + [keep]);
    }
  }

  /** `breed_dogs` creates at most one row, the preview dog under the next id,
      and none when a pair is refused. */
  lemma BreedDogsCreatesNoDog(s: PlayerState, pairs: seq<seq<DogId>>, swapped: set<int>)
    ensures var (r, s') := BreedDogs(s, pairs, swapped);
            && s'.dogs.Keys <= s.dogs.Keys + {s.nextDogId}
            && (r.Err? ==> s'.dogs.Keys <= s.dogs.Keys)
  {
    BreedFromCreatesNoRow(s, pairs, swapped, 0, []);
  }

  /** An accepted pair only touches active dogs: the preview dogs stay as
      they were. */
  lemma BreedPairKeepsPreview(s: PlayerState, ids: seq<DogId>, swap: bool)
    ensures var r := BreedPair(s, ids, swap);
            r.Ok? ==> && VirtualIds(r.value.0.dogs) == VirtualIds(s.dogs)
                      && forall id | id in VirtualIds(s.dogs) :: r.value.0.dogs[id] == s.dogs[id]
  {
    var found := PairDogs(s.dogs, ids);
    if |found| == 2 {
      PairIsMinMax(found);
      var lo, hi := SetMin(found), SetMax(found);
      if s.dogs[lo].lvl == s.dogs[hi].lvl {
        var keep, drop := if swap then hi else lo, if swap then lo else hi;
        assert keep in found && drop in found;
        MergeRows(s, keep, drop);
      }
    }
  }

  /** The loop keeps the preview dogs as they were. */
  lemma {:induction false} BreedFromKeepsPreview(
    s: PlayerState, pairs: seq<seq<DogId>>, swapped: set<int>, i: nat, acc: seq<DogId>)
    requires i <= |pairs|
    ensures var s' := BreedFrom(s, pairs, swapped, i, acc).1;
            && VirtualIds(s'.dogs) == VirtualIds(s.dogs)
            && forall id | id in VirtualIds(s.dogs) :: s'.dogs[id] == s.dogs[id]
    decreases |pairs| - i
  {
    if i < |pairs| {
      BreedPairKeepsPreview(s, pairs[i], i in swapped);
      match BreedPair(s, pairs[i], i in swapped)
      case Err(_) =>
      case Ok((s1, keep)) =>
        BreedFromKeepsPreview(s1, pairs, swapped, i + 1, acc + [keep]);
    }
  }

  /** `breed_dogs` never changes the price of the dog for sale: an existing
      preview dog keeps its id and its price, whether the batch succeeds (the
      level-only recomputation) or is refused part-way. */
  lemma BreedDogsKeepsPreviewPrice(s: PlayerState, pairs: seq<seq<DogId>>, swapped: set<int>)
    requires VirtualIds(s.dogs) != {}
    ensures var vid := GetOrCreateVirtualDog(s).1;
            var s' := BreedDogs(s, pairs, swapped).1;
            && GetOrCreateVirtualDog(s') == (s', vid)
            && s'.dogs[vid].price == s.dogs[vid].price
  {
    BreedFromKeepsPreview(s, pairs, swapped, 0, []);
    var vid := GetOrCreateVirtualDog(s).1;
    var (r, s1) := BreedFrom(s, pairs, swapped, 0, []);
    assert GetOrCreateVirtualDog(s1) == (s1, vid);
    if r.Ok? {
      LevelRecomputeKeepsPrice(s1);
      var s' := UpdateVirtualDogLevel(s1);
      assert VirtualIds(s'.dogs) == VirtualIds(s1.dogs);
    }
  }

  /** A refused first pair (unknown or inactive ids, a count other than two,
      unequal levels) changes nothing at all. */
  lemma FirstPairRefusedChangesNothing(s: PlayerState, pairs: seq<seq<DogId>>, swapped: set<int>)
    requires pairs != []
    requires BreedPair(s, pairs[0], 0 in swapped).Err?
    ensures BreedDogs(s, pairs, swapped) == (Err(BreedPair(s, pairs[0], 0 in swapped).error), s)
  {
  }

  lemma {:induction false} RefusalAfterPrefix(
    s: PlayerState, pairs: seq<seq<DogId>>, swapped: set<int>, k: nat, i: nat, acc: seq<DogId>)
    requires i <= k < |pairs|
    requires BreedFrom(s, pairs[..k], swapped, i, acc).0.Ok?
    requires BreedPair(BreedFrom(s, pairs[..k], swapped, i, acc).1, pairs[k], k in swapped).Err?
    ensures BreedFrom(s, pairs, swapped, i, acc) ==
              (Err(BreedPair(BreedFrom(s, pairs[..k], swapped, i, acc).1, pairs[k], k in swapped).error),
               BreedFrom(s, pairs[..k], swapped, i, acc).1)
    decreases k - i
  {
    if i < k {
      assert pairs[..k][i] == pairs[i];
      match BreedPair(s, pairs[i], i in swapped)
      case Err(_) =>
      case Ok((s1, keep)) =>
        RefusalAfterPrefix(s1, pairs, swapped, k, i + 1, acc + [keep]);
    }
  }

  /** The batch is not atomic: when pair `k` is refused after the pairs
      before it were accepted, those pairs stay applied and the preview dog is
      not recomputed. */
  lemma RefusalKeepsCommittedPairs(s: PlayerState, pairs: seq<seq<DogId>>, swapped: set<int>, k: nat)
    requires k < |pairs|
    requires BreedFrom(s, pairs[..k], swapped, 0, []).0.Ok?
    requires BreedPair(BreedFrom(s, pairs[..k], swapped, 0, []).1, pairs[k], k in swapped).Err?
    ensures BreedDogs(s, pairs, swapped) ==
              (Err(BreedPair(BreedFrom(s, pairs[..k], swapped, 0, []).1, pairs[k], k in swapped).error),
               BreedFrom(s, pairs[..k], swapped, 0, []).1)
  {
    RefusalAfterPrefix(s, pairs, swapped, k, 0, []);
  }
}
