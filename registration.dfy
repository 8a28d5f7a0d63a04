/** `PlayerInfo.get`: log in an existing player, or register a new one with
    its bonus timers, its preview dog and, optionally, a referral link. */
module Registration {
  import opened Wrappers
  import opened Clock
  import opened Records
  import opened Ledger

  /** A referral row; both bonus flags default to true. */
  datatype Referral = Referral(referral: int, newPlayer: int, referralBonus: bool, newPlayerBonus: bool)

  /** The player rows, keyed by Telegram id (unique), and the referral rows
      in creation order. */
  datatype StoreState = StoreState(players: map<int, PlayerState>, referrals: seq<Referral>)

  /** Why `PlayerInfo.get` fails: the Telegram id is registered under another
      name (the unique constraint refuses the insert), the player referred
      itself, the link already exists, or the referrer is not registered. */
  datatype RegError = TgIdTaken | SelfReferral | DuplicateReferral | ReferrerNotFound

  /** Some referral row links `referrer` to `newcomer`. */
  predicate Linked(refs: seq<Referral>, referrer: int, newcomer: int) {
    exists i | 0 <= i < |refs| :: refs[i].referral == referrer && refs[i].newPlayer == newcomer
  }

  /** Every player is stored under its own id and is valid; every referral
      row points at registered players; no link is recorded twice. */
  predicate StoreValid(st: StoreState) {
    && (forall t | t in st.players :: st.players[t].tgId == t && PlayerValid(st.players[t]))
    && (forall i | 0 <= i < |st.referrals| ::
          st.referrals[i].referral in st.players && st.referrals[i].newPlayer in st.players)
    && (forall i, j | 0 <= i < j < |st.referrals| ::
          (st.referrals[i].referral, st.referrals[i].newPlayer) != (st.referrals[j].referral, st.referrals[j].newPlayer))
  }

  /** A freshly registered player: the column defaults, the offline window
      [now, now + 3h], the per-second cursor at now, and the preview dog. */
  function NewPlayer(tgId: int, name: string, now: int): (p: PlayerState)
    ensures p.tgId == tgId && p.name == name
    ensures p.startOfflineCoins == Some(now) && p.finishOfflineCoins == Some(now + OfflineWindow)
    ensures p.finishSecondCoins == Some(now)
    ensures p.coins == 0 && p.coinsInSecond == 0 && p.consecutiveDays == 0 && p.lastLoginDate.None?
    ensures p.coinsSpentToday == 0 && p.offlineCoins == 0 && p.dailyBonusFriends == 0 && p.lvl == 1
    ensures p.dailyBonus && p.instruction
    ensures p.dogs == map[0 := DefaultVirtualDog] && p.nextDogId == 1
    ensures PlayerValid(p)
  {
    var row := NewPlayerRow(tgId, name).(
      startOfflineCoins := Some(now),
      finishOfflineCoins := Some(now + OfflineWindow),
      finishSecondCoins := Some(now));
    assert VirtualIds(row.dogs) == {};
    GetOrCreateVirtualDog(row).0
  }

  /** `PlayerInfo.get(tg_id, name, referral_id)` at instant `now`: the
      player's row, or the failure, together with the new store. A referral
      id of 0 counts as absent, as the handler tests it for truth. The new
      player row is stored before the referral is looked at, so a failed
      referral still leaves the player registered. */
  function PlayerInfoGet(st: StoreState, tgId: int, name: string, referralId: Option<int>, now: int)
    : (r: (Result<PlayerState, RegError>, StoreState))
    // an existing player logging in under its name: the instruction flag is cleared
    ensures tgId in st.players && st.players[tgId].name == name ==>
      var p := st.players[tgId].(instruction := false);
      r == (Ok(p), st.(players := st.players[tgId := p]))
    // the id taken under another name: nothing changes
    ensures tgId in st.players && st.players[tgId].name != name ==> r == (Err(TgIdTaken), st)
    // a new player is always stored, whatever the referral's outcome
    ensures tgId !in st.players ==> r.1.players == st.players[tgId := NewPlayer(tgId, name, now)]
    ensures tgId !in st.players && r.0.Ok? ==> r.0.value == NewPlayer(tgId, name, now)
    // self-referral: refused, and no referral row
    ensures tgId !in st.players && referralId == Some(tgId) ==>
      r.0 == Err(SelfReferral) && r.1.referrals == st.referrals
    // a referral to another registered player that is not yet linked: exactly one row
    ensures tgId !in st.players && referralId.Some? && referralId.value !in {0, tgId} ==>
      (referralId.value !in st.players ==> r.0 == Err(ReferrerNotFound) && r.1.referrals == st.referrals) &&
      (referralId.value in st.players && Linked(st.referrals, referralId.value, tgId) ==>
         r.0 == Err(DuplicateReferral) && r.1.referrals == st.referrals) &&
      (referralId.value in st.players && !Linked(st.referrals, referralId.value, tgId) ==>
         r.0.Ok? && r.1.referrals == st.referrals + [Referral(referralId.value, tgId, true, true)])
    // no usable referral id: registered, no referral row
    ensures tgId !in st.players && (referralId.None? || (referralId.value == 0 && tgId != 0)) ==>
      r.0.Ok? && r.1.referrals == st.referrals
  {
    if tgId in st.players then LogIn(st, tgId, name)
    else Register(st, tgId, name, referralId, now)
  }

  /** The branch for a registered id. */
  function LogIn(st: StoreState, tgId: int, name: string): (r: (Result<PlayerState, RegError>, StoreState))
    requires tgId in st.players
    ensures r.0.Ok? <==> st.players[tgId].name == name
    ensures r.0.Ok? ==> r.0.value == st.players[tgId].(instruction := false)
                        && r.1 == st.(players := st.players[tgId := r.0.value])
    ensures r.0.Err? ==> r == (Err(TgIdTaken), st)
  {
    var p := st.players[tgId];
    if p.name == name then
      var p' := p.(instruction := false);
      (Ok(p'), st.(players := st.players[tgId := p']))
    else (Err(TgIdTaken), st)
  }

  /** The branch for a new id. */
  function Register(st: StoreState, tgId: int, name: string, referralId: Option<int>, now: int)
    : (r: (Result<PlayerState, RegError>, StoreState))
    // the new player is stored whatever happens to the referral
    ensures r.1.players == st.players[tgId := NewPlayer(tgId, name, now)]
    ensures r.0.Ok? ==> r.0.value == NewPlayer(tgId, name, now)
    // at most one link is added, and only on success
    ensures r.0.Err? ==> r.1.referrals == st.referrals
    ensures r.1.referrals == st.referrals ||
            (referralId.Some? && r.1.referrals == st.referrals + [Referral(referralId.value, tgId, true, true)])
  {
    var p := NewPlayer(tgId, name, now);
    var st1 := st.(players := st.players[tgId := p]);
    if referralId.Some? && referralId.value != 0 && referralId.value != tgId then
      var referrer := referralId.value;
      if referrer !in st1.players then (Err(ReferrerNotFound), st1)
      else if Linked(st1.referrals, referrer, tgId) then (Err(DuplicateReferral), st1)
      else (Ok(p), st1.(referrals := st1.referrals + [Referral(referrer, tgId, true, true)]))
    else if referralId == Some(tgId) then (Err(SelfReferral), st1)
    else (Ok(p), st1)
  }

  /** In a valid store a newcomer has no referral rows yet, so the duplicate
      check never fires for a player the request itself registered. */
  lemma DuplicateReferralUnreachable(st: StoreState, tgId: int, name: string, referralId: Option<int>, now: int)
    requires StoreValid(st)
    ensures PlayerInfoGet(st, tgId, name, referralId, now).0 != Err(DuplicateReferral)
  {
    if tgId !in st.players && referralId.Some? && referralId.value !in {0, tgId} && referralId.value in st.players {
      forall i | 0 <= i < |st.referrals| ensures st.referrals[i].newPlayer != tgId {
        assert st.referrals[i].newPlayer in st.players;
      }
      assert !Linked(st.referrals, referralId.value, tgId);
    }
  }

  /** Every outcome of `PlayerInfo.get` keeps the store valid. */
  lemma PlayerInfoGetKeepsValid(st: StoreState, tgId: int, name: string, referralId: Option<int>, now: int)
    requires StoreValid(st)
    ensures StoreValid(PlayerInfoGet(st, tgId, name, referralId, now).1)
  {
    var st' := PlayerInfoGet(st, tgId, name, referralId, now).1;
    if tgId !in st.players && referralId.Some? && referralId.value !in {0, tgId} && referralId.value in st.players
       && !Linked(st.referrals, referralId.value, tgId) {
      var n := |st.referrals|;
      forall i, j | 0 <= i < j < |st'.referrals|
        ensures (st'.referrals[i].referral, st'.referrals[i].newPlayer) != (st'.referrals[j].referral, st'.referrals[j].newPlayer)
      {
        if j == n {
          assert st'.referrals[i] == st.referrals[i];
        }
      }
    }
  }

  /** Logging in again answers the same and changes nothing more. */
  lemma LoginTwiceSameAsOnce(st: StoreState, tgId: int, name: string, referralId: Option<int>, now: int, later: int)
    requires tgId in st.players
    ensures var (_, st1) := PlayerInfoGet(st, tgId, name, referralId, now);
            PlayerInfoGet(st1, tgId, name, referralId, later) == (PlayerInfoGet(st, tgId, name, referralId, now).0, st1)
  {
    var st1 := PlayerInfoGet(st, tgId, name, referralId, now).1;
    if st.players[tgId].name == name {
      assert st1.players[tgId := st1.players[tgId].(instruction := false)] == st1.players;
    }
  }

  /** A player registered by one request is logged in by the next one with
      the same id and name: its instruction flag is then cleared and nothing
      else about it changes. */
  lemma RegisterThenLogin(st: StoreState, tgId: int, name: string, referralId: Option<int>, now: int, later: int)
    requires tgId !in st.players
    ensures var (_, st1) := PlayerInfoGet(st, tgId, name, referralId, now);
            var (r2, st2) := PlayerInfoGet(st1, tgId, name, None, later);
            && st1.players[tgId].instruction
            && r2 == Ok(NewPlayer(tgId, name, now).(instruction := false))
            && st2.referrals == st1.referrals
  {
  }
}
