/** The rows the core reads and writes: a player, the player's dogs, and the
    invariants the economy is meant to keep. */
module Records {
  import opened Wrappers
  import opened Sets

  type DogId = int

  /** Number of places on a player's playing field. */
  const FieldCount: int := 12

  /** Column defaults of a dog row. */
  const DefaultPrice: int := 100
  const DefaultPercentTenths: int := 70    // 7.0 percent, in tenths of a percent
  const DefaultBonusSecond: int := 3

  /** Price growth once the preview dog reaches level 2: 17.5 percent. */
  const LevelTwoPercentTenths: int := 175

  /** A dog row. `percentTenths` is `percent_up_price` in tenths of a percent;
      `field` is the place on the playing field (unset for the preview dog). */
  datatype Dog = Dog(
    lvl: int,
    price: int,
    percentTenths: int,
    bonusSecond: int,
    bonusConnection: int,
    field: Option<int>,
    isActive: bool)

  /** The inactive "virtual" dog as `acreate(player=..., is_active=False)`
      builds it from the column defaults. */
  const DefaultVirtualDog: Dog :=
    Dog(1, DefaultPrice, DefaultPercentTenths, DefaultBonusSecond, 0, None, false)

  /** A player row together with the player's dog rows. Instants are
      microseconds, dates are day numbers; `nextDogId` is the id the store
      hands to the next dog row it creates. */
  datatype PlayerState = PlayerState(
    tgId: int,
    name: string,
    coins: int,
    coinsSpentToday: int,
    dailyBonusFriends: int,
    consecutiveDays: int,
    lastLoginDate: Option<int>,
    offlineCoins: int,
    startOfflineCoins: Option<int>,
    finishOfflineCoins: Option<int>,
    coinsInSecond: int,
    finishSecondCoins: Option<int>,
    lvl: int,
    dailyBonus: bool,
    instruction: bool,
    dogs: map<DogId, Dog>,
    nextDogId: DogId)

  /** A player row as created with the column defaults and no dogs. */
  function NewPlayerRow(tgId: int, name: string): PlayerState {
    PlayerState(tgId, name, 0, 0, 0, 0, None, 0, None, None, 0, None, 1, true, true, map[], 0)
  }

  /** `player.dogs.filter(is_active=True)` */
  function ActiveIds(dogs: map<DogId, Dog>): set<DogId> {
    set id | id in dogs && dogs[id].isActive
  }

  /** `player.dogs.filter(is_active=False)`: the preview dogs. */
  function VirtualIds(dogs: map<DogId, Dog>): set<DogId> {
    set id | id in dogs && !dogs[id].isActive
  }

  /** `player.dogs.filter(is_active=True).acount()` */
  function ActiveCount(dogs: map<DogId, Dog>): nat {
    |ActiveIds(dogs)|
  }

  /** The `dog_field` values of the active dogs, unset ones included. */
  function OccupiedFields(dogs: map<DogId, Dog>): set<Option<int>> {
    set id | id in ActiveIds(dogs) :: dogs[id].field
  }

  /** The places held by active dogs, as numbers. */
  function OccupiedPlaces(dogs: map<DogId, Dog>): set<int> {
    set id | id in ActiveIds(dogs) && dogs[id].field.Some? :: dogs[id].field.value
  }

  /** `aaggregate(Max('lvl'))` over the active dogs, with 1 when there are none. */
  function MaxActiveLevel(dogs: map<DogId, Dog>): (m: int)
    ensures forall id | id in ActiveIds(dogs) :: dogs[id].lvl <= m
    ensures ActiveIds(dogs) == {} ==> m == 1
    ensures ActiveIds(dogs) != {} ==> exists id | id in ActiveIds(dogs) :: dogs[id].lvl == m
  {
    var levels := set id | id in ActiveIds(dogs) :: dogs[id].lvl;
    assert forall id | id in ActiveIds(dogs) :: dogs[id].lvl in levels;
    if levels == {} then 1 else SetMax(levels)
  }

  /** The scan of places f..12 in `find_free_field`: the first place not
      among `occupied`, or None when all of them are. */
  function FreeFieldFrom(occupied: set<Option<int>>, f: int): (r: Option<int>)
    requires 1 <= f <= FieldCount + 1
    ensures r.Some? ==> f <= r.value <= FieldCount && Some(r.value) !in occupied
    ensures r.Some? ==> forall g | f <= g < r.value :: Some(g) in occupied
    ensures r.None? <==> forall g | f <= g <= FieldCount :: Some(g) in occupied
    decreases FieldCount + 1 - f
  {
    if f > FieldCount then None
    else if Some(f) !in occupied then Some(f)
    else FreeFieldFrom(occupied, f + 1)
  }

  /** The place `find_free_field` returns for these dogs. */
  function FreeField(dogs: map<DogId, Dog>): (r: Option<int>)
    ensures r.Some? ==> 1 <= r.value <= FieldCount && Some(r.value) !in OccupiedFields(dogs)
    ensures r.Some? ==> forall g | 1 <= g < r.value :: Some(g) in OccupiedFields(dogs)
    ensures r.None? <==> forall g | 1 <= g <= FieldCount :: Some(g) in OccupiedFields(dogs)
  {
    FreeFieldFrom(OccupiedFields(dogs), 1)
  }

  predicate DogValid(d: Dog) {
    && d.lvl >= 1
    && d.price >= 0
    && d.percentTenths >= 0
    && d.bonusSecond >= 0
    && (if d.isActive then d.field.Some? && 1 <= d.field.value <= FieldCount else d.field.None?)
  }

  /** Active dogs hold distinct places. */
  predicate PlacesDistinct(dogs: map<DogId, Dog>) {
    forall a, b | a in ActiveIds(dogs) && b in ActiveIds(dogs) && a != b :: dogs[a].field != dogs[b].field
  }

  /** The dog table of one player: ids below the next id, every row valid,
      distinct places among active dogs, at most one preview dog. */
  predicate LedgerValid(dogs: map<DogId, Dog>, nextId: DogId) {
    && 0 <= nextId
    && (forall id | id in dogs :: 0 <= id < nextId && DogValid(dogs[id]))
    && PlacesDistinct(dogs)
    && (forall a, b | a in VirtualIds(dogs) && b in VirtualIds(dogs) :: a == b)
  }

  /** The invariant of a player: no negative balances or rates, a well-formed
      offline window, a valid dog table. */
  predicate PlayerValid(s: PlayerState) {
    && s.coins >= 0
    && s.coinsSpentToday >= 0
    && s.coinsInSecond >= 0
    && s.offlineCoins >= 0
    && s.consecutiveDays >= 0
    && (s.startOfflineCoins.Some? && s.finishOfflineCoins.Some? ==>
          s.startOfflineCoins.value <= s.finishOfflineCoins.value)
    && LedgerValid(s.dogs, s.nextDogId)
  }

  /** With distinct places, active dogs and held places are in one-to-one
      correspondence. */
  lemma {:induction false} PlacesOfSize(dogs: map<DogId, Dog>, ids: set<DogId>)
    requires ids <= ActiveIds(dogs)
    requires PlacesDistinct(dogs)
    requires forall id | id in ids :: dogs[id].field.Some?
    ensures |set id | id in ids :: dogs[id].field.value| == |ids|
  {
    if ids != {} {
      var x := Pick(ids);
      var rest := ids - {x};
      PlacesOfSize(dogs, rest);
      var image := set id | id in ids :: dogs[id].field.value;
      var restImage := set id | id in rest :: dogs[id].field.value;
      assert image == restImage + {dogs[x].field.value};
      assert dogs[x].field.value !in restImage;
    }
  }

  /** Under the invariant the number of active dogs is the number of held places. */
  lemma OccupiedPlacesCount(dogs: map<DogId, Dog>, nextId: DogId)
    requires LedgerValid(dogs, nextId)
    ensures |OccupiedPlaces(dogs)| == ActiveCount(dogs)
    ensures OccupiedPlaces(dogs) <= Range(1, FieldCount + 1)
  {
    PlacesOfSize(dogs, ActiveIds(dogs));
    assert OccupiedPlaces(dogs) == set id | id in ActiveIds(dogs) :: dogs[id].field.value;
  }

  /** The invariant bounds the field: never more than twelve active dogs. */
  lemma ActiveAtMostFieldCount(dogs: map<DogId, Dog>, nextId: DogId)
    requires LedgerValid(dogs, nextId)
    ensures ActiveCount(dogs) <= FieldCount
  {
    OccupiedPlacesCount(dogs, nextId);
    SubsetSize(OccupiedPlaces(dogs), Range(1, FieldCount + 1));
  }

  /** A place is among the occupied fields exactly when it is a held place. */
  lemma FieldHeldIffPlace(dogs: map<DogId, Dog>, g: int)
    ensures Some(g) in OccupiedFields(dogs) <==> g in OccupiedPlaces(dogs)
  {
    if g in OccupiedPlaces(dogs) {
      var id :| id in ActiveIds(dogs) && dogs[id].field.Some? && dogs[id].field.value == g;
      assert dogs[id].field == Some(g);
    }
    if Some(g) in OccupiedFields(dogs) {
      var id :| id in ActiveIds(dogs) && dogs[id].field == Some(g);
      assert g in OccupiedPlaces(dogs);
    }
  }

  lemma {:induction false} FullWhenNoFreeField(dogs: map<DogId, Dog>, nextId: DogId)
    requires LedgerValid(dogs, nextId)
    requires FreeField(dogs).None?
    ensures ActiveCount(dogs) == FieldCount
  {
    OccupiedPlacesCount(dogs, nextId);
    var all := Range(1, FieldCount + 1);
    forall g | g in all ensures g in OccupiedPlaces(dogs) {
      FieldHeldIffPlace(dogs, g);
    }
    SubsetSize(all, OccupiedPlaces(dogs));
    ActiveAtMostFieldCount(dogs, nextId);
  }

  lemma {:induction false} NoFreeFieldWhenFull(dogs: map<DogId, Dog>, nextId: DogId)
    requires LedgerValid(dogs, nextId)
    requires ActiveCount(dogs) == FieldCount
    ensures FreeField(dogs).None?
  {
    OccupiedPlacesCount(dogs, nextId);
    var all := Range(1, FieldCount + 1);
    var missing := all - OccupiedPlaces(dogs);
    assert |missing| == 0;
    forall g | 1 <= g <= FieldCount ensures Some(g) in OccupiedFields(dogs) {
      assert g !in missing;
      FieldHeldIffPlace(dogs, g);
    }
  }

  /** `find_free_field` finds nothing exactly when all twelve places are held. */
  lemma FreeFieldNoneIffFull(dogs: map<DogId, Dog>, nextId: DogId)
    requires LedgerValid(dogs, nextId)
    ensures FreeField(dogs).None? <==> ActiveCount(dogs) == FieldCount
  {
    if FreeField(dogs).None? {
      FullWhenNoFreeField(dogs, nextId);
    }
    if ActiveCount(dogs) == FieldCount {
      NoFreeFieldWhenFull(dogs, nextId);
    }
  }
}
