/** The request handlers: `LoginTodayFlag.post`, `GetBonus.post`, the
    breeding request of `DogsPlayer.put` on an already looked-up player, and
    `PlayerInfo.get` on the table of players. */
module Views {
  import opened Wrappers
  import opened Clock
  import opened DailyBonuses
  import opened Records
  import Bonuses
  import Breeding
  import Ledger
  import Registration
  import opened Models

  /** `LoginTodayFlag.post` at instant `now`. */
  method LoginTodayFlag(p: Player, now: int, table: BonusTable)
    modifies p
    ensures p.State() == Bonuses.LoginTodayFlag(old(p.State()), now, table)
  {
    p.UpdateDailyStatus(now, table);
    p.dailyBonus := false;
  }

  /** `GetBonus.post(hour, second)` at instant `now`: the new balance, or
      why nothing was paid. */
  method GetBonus(p: Player, hour: bool, second: bool, now: int) returns (r: Result<int, Bonuses.BonusError>)
    modifies p
    ensures (r, p.State()) == Bonuses.GetBonus(old(p.State()), hour, second, now)
  {
    if !hour && !second {
      return Err(Bonuses.NoBonusSelected);
    }
    ghost var s := p.State();
    if hour {
      if p.finishOfflineCoins.Some? && now >= p.finishOfflineCoins.value {
        p.coins, p.startOfflineCoins, p.finishOfflineCoins :=
          p.coins + p.offlineCoins, Some(now), Some(now + OfflineWindow);
        assert p.State() == Bonuses.OfflineBonus(s, now);
      } else {
        return Err(Bonuses.OfflineBonusNotReady);
      }
    }
    ghost var s1 := p.State();
    if second {
      if p.finishSecondCoins.Some? {
        var secondsPassed := WholeSecondsBetween(p.finishSecondCoins.value, now);
        var earned := secondsPassed * p.coinsInSecond;
        p.coins := p.coins + earned;
      }
      p.finishSecondCoins := Some(now);
      assert p.State() == Bonuses.PerSecondBonus(s1, now);
    }
    return Ok(p.coins);
  }

  /** `DogsPlayer.put`: refuse an empty list of pairs, otherwise breed. */
  method BreedRequest(p: Player, pairs: seq<seq<DogId>>, swapped: set<int>)
    returns (r: Result<seq<DogId>, Breeding.BreedRequestError>)
    modifies p
    ensures (r, p.State()) == Breeding.BreedRequest(old(p.State()), pairs, swapped)
  {
    if pairs == [] {
      return Err(Breeding.NoPairs);
    }
    var bred := BreedDogs(p, pairs, swapped);
    match bred
    case Ok(upgraded) => r := Ok(upgraded);
    case Err(e) => r := Err(Breeding.Refused(e));
  }

  /** The new-player branch of `PlayerInfo.get`: a row with the column
      defaults, its bonus timers started at `now`, and its preview dog. */
  method NewPlayer(tgId: int, name: string, now: int) returns (player: Player)
    ensures fresh(player)
    ensures player.State() == Registration.NewPlayer(tgId, name, now)
  {
    player := new Player(tgId, name);
    player.startOfflineCoins, player.finishOfflineCoins, player.finishSecondCoins :=
      Some(now), Some(now + OfflineWindow), Some(now);
    ghost var row := player.State();
    var _ := GetOrCreateVirtualDog(player);
    assert player.State() == Ledger.GetOrCreateVirtualDog(row).0;
  }

  /** The tables `PlayerInfo.get` touches: the player rows keyed by Telegram
      id, and the referral rows in creation order. A request works on a
      loaded `Player` object and saves its row back. */
  class Store {
    var players: map<int, PlayerState>
    var referrals: seq<Registration.Referral>

    function State(): Registration.StoreState
      reads this
    {
      Registration.StoreState(players, referrals)
    }

    /** Empty tables. */
    constructor ()
      ensures State() == Registration.StoreState(map[], [])
    {
      players := map[];
      referrals := [];
    }

    /** `PlayerInfo.get(tg_id, name, referral_id)` at instant `now`. */
    method PlayerInfoGet(tgId: int, name: string, referralId: Option<int>, now: int)
      returns (r: Result<PlayerState, Registration.RegError>)
      modifies this
      ensures (r, State()) == Registration.PlayerInfoGet(old(State()), tgId, name, referralId, now)
    {
      if tgId in players {
        r := LogIn(tgId, name);
      } else {
        r := Register(tgId, name, referralId, now);
      }
    }

    /** The branch of `PlayerInfo.get` for a registered id: the name must
        match (the insert under another name breaks the unique id), and the
        instruction flag is cleared and saved. */
    method LogIn(tgId: int, name: string)
      returns (r: Result<PlayerState, Registration.RegError>)
      requires tgId in players
      modifies this
      ensures (r, State()) == Registration.LogIn(old(State()), tgId, name)
    {
      var player := new Player.Load(players[tgId]);
      if player.name != name {
        return Err(Registration.TgIdTaken);
      }
      if player.instruction {
        player.instruction := false;
        players := players[tgId := player.State()];
      } else {
        assert players[tgId := player.State().(instruction := false)] == players;
      }
      return Ok(player.State());
    }

    /** The branch of `PlayerInfo.get` for a new id: the new player's row is
        saved first, then the referral is checked, so a failed referral still
        leaves the player registered. */
    method Register(tgId: int, name: string, referralId: Option<int>, now: int)
      returns (r: Result<PlayerState, Registration.RegError>)
      requires tgId !in players
      modifies this
      ensures (r, State()) == Registration.Register(old(State()), tgId, name, referralId, now)
    {
      var player := NewPlayer(tgId, name, now);
      players := players[tgId := player.State()];
      if referralId.Some? && referralId.value != 0 && referralId.value != tgId {
        var referrer := referralId.value;
        if referrer !in players {
          return Err(Registration.ReferrerNotFound);
        }
        if Registration.Linked(referrals, referrer, tgId) {
          return Err(Registration.DuplicateReferral);
        }
        referrals := referrals + [Registration.Referral(referrer, tgId, true, true)];
      } else if referralId == Some(tgId) {
        return Err(Registration.SelfReferral);
      }
      return Ok(player.State());
    }
  }
}
