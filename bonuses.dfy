/** The bonus handlers: `LoginTodayFlag.post` (daily login bonus), the daily
    reset of the bonus flag, and `GetBonus.post` (offline and per-second
    bonuses). */
module Bonuses {
  import opened Wrappers
  import opened Clock
  import opened DailyBonuses
  import opened Records
  import opened Streak

  /** `LoginTodayFlag.post`: the streak update, then the flag is cleared. */
  function LoginTodayFlag(s: PlayerState, now: int, table: BonusTable): (r: PlayerState)
    ensures !r.dailyBonus
  {
    UpdateDailyStatus(s, now, table).(dailyBonus := false)
  }

  /** The scheduled reset: `daily_bonus = True` for every player. */
  function ResetDailyBonus(s: PlayerState): (r: PlayerState)
    ensures r.dailyBonus
  {
    s.(dailyBonus := true)
  }

  /** Once claimed, a second claim before the reset awards nothing and
      changes nothing. */
  lemma SecondClaimChangesNothing(s: PlayerState, now: int, later: int, table: BonusTable)
    ensures LoginTodayFlag(LoginTodayFlag(s, now, table), later, table) == LoginTodayFlag(s, now, table)
  {
  }

  /** Claims on successive calendar days, each after the daily reset. */
  function DailyClaims(s: PlayerState, nows: seq<int>, table: BonusTable): PlayerState
    decreases |nows|
  {
    if nows == [] then s
    else DailyClaims(LoginTodayFlag(ResetDailyBonus(s), nows[0], table), nows[1..], table)
  }

  /** Sum of the rewards for streak days from+1 .. from+n. */
  function StreakRewards(table: BonusTable, from: int, n: nat): int
    decreases n
  {
    if n == 0 then 0 else RewardFor(table, from + 1) + StreakRewards(table, from + 1, n - 1)
  }

  /** One claim, after the reset, on the day after the last login. */
  lemma NextDayClaim(s: PlayerState, now: int, table: BonusTable)
    requires s.lastLoginDate == Some(DateOf(now) - 1)
    ensures var r := LoginTodayFlag(ResetDailyBonus(s), now, table);
            && r.consecutiveDays == s.consecutiveDays + 1
            && r.lastLoginDate == Some(DateOf(now))
            && r.coins == s.coins + RewardFor(table, s.consecutiveDays + 1)
  {
    var u := UpdateDailyStatus(ResetDailyBonus(s), now, table);
    assert u.consecutiveDays == s.consecutiveDays + 1;
  }

  /** The instants fall on the days d+1, d+2, ... in turn. */
  predicate OnSuccessiveDays(nows: seq<int>, d: int)
    decreases |nows|
  {
    nows == [] || (DateOf(nows[0]) == d + 1 && OnSuccessiveDays(nows[1..], d + 1))
  }

  /** A player who last logged in on day d and then claims on days d+1, d+2,
      ... d+n extends the streak by n and receives the rewards of the n
      streak days that follow the current one. */
  lemma {:induction false} ConsecutiveClaims(s: PlayerState, d: int, nows: seq<int>, table: BonusTable)
    requires s.lastLoginDate == Some(d)
    requires OnSuccessiveDays(nows, d)
    ensures DailyClaims(s, nows, table).consecutiveDays == s.consecutiveDays + |nows|
    ensures DailyClaims(s, nows, table).coins == s.coins + StreakRewards(table, s.consecutiveDays, |nows|)
    decreases |nows|
  {
    if nows != [] {
      var s1 := LoginTodayFlag(ResetDailyBonus(s), nows[0], table);
      NextDayClaim(s, nows[0], table);
      ConsecutiveClaims(s1, d + 1, nows[1..], table);
      var rest := DailyClaims(s1, nows[1..], table);
      assert DailyClaims(s, nows, table) == rest;
      assert rest.consecutiveDays == s1.consecutiveDays + (|nows| - 1);
      assert StreakRewards(table, s.consecutiveDays, |nows|)
          == RewardFor(table, s.consecutiveDays + 1) + StreakRewards(table, s1.consecutiveDays, |nows| - 1);
    }
  }

  /** A claim on a day that does not follow the last login restarts the
      streak at one, and pays the day-one reward. */
  lemma MissedDayRestartsStreak(s: PlayerState, now: int, table: BonusTable)
    requires s.dailyBonus
    requires s.lastLoginDate != Some(DateOf(now) - 1)
    ensures LoginTodayFlag(s, now, table).consecutiveDays == 1
    ensures LoginTodayFlag(s, now, table).coins == s.coins + RewardFor(table, 1)
  {
  }

  /** Why `GetBonus.post` refuses. */
  datatype BonusError = NoBonusSelected | OfflineBonusNotReady

  /** The offline bonus may be collected once its window has closed. */
  predicate OfflineReady(s: PlayerState, now: int) {
    s.finishOfflineCoins.Some? && now >= s.finishOfflineCoins.value
  }

  /** The offline bonus: the flat reward, and a new window [now, now + 3h]. */
  function OfflineBonus(s: PlayerState, now: int): (r: PlayerState)
    ensures r.coins == s.coins + s.offlineCoins
    ensures r.startOfflineCoins == Some(now) && r.finishOfflineCoins == Some(now + OfflineWindow)
    // the new window is still open: the bonus cannot be taken twice at once
    ensures !OfflineReady(r, now)
    ensures r == s.(coins := r.coins, startOfflineCoins := r.startOfflineCoins, finishOfflineCoins := r.finishOfflineCoins)
  {
    s.(coins := s.coins + s.offlineCoins,
       startOfflineCoins := Some(now),
       finishOfflineCoins := Some(now + OfflineWindow))
  }

  /** The per-second bonus: whole seconds since the cursor (truncated toward
      zero, not clamped) times the income rate; the cursor moves to now. */
  function PerSecondBonus(s: PlayerState, now: int): (r: PlayerState)
    ensures s.finishSecondCoins.None? ==> r.coins == s.coins
    ensures s.finishSecondCoins.Some? ==>
              r.coins == s.coins + WholeSecondsBetween(s.finishSecondCoins.value, now) * s.coinsInSecond
    ensures r == s.(coins := r.coins, finishSecondCoins := Some(now))
  {
    var earned :=
      if s.finishSecondCoins.Some? then WholeSecondsBetween(s.finishSecondCoins.value, now) * s.coinsInSecond
      else 0;
    s.(coins := s.coins + earned, finishSecondCoins := Some(now))
  }

  /** `GetBonus.post(hour, second)` at instant `now`: the new balance, or the
      refusal. Neither flag, or a requested offline bonus that is not ready,
      is refused before anything changes, so a refused offline bonus also
      cancels a requested per-second bonus. Otherwise the offline bonus is
      applied first, then the per-second bonus. */
  function GetBonus(s: PlayerState, hour: bool, second: bool, now: int): (r: (Result<int, BonusError>, PlayerState))
    ensures r.0 == Err(NoBonusSelected) <==> !hour && !second
    ensures r.0 == Err(OfflineBonusNotReady) <==> (hour || second) && hour && !OfflineReady(s, now)
    ensures r.0.Err? ==> r.1 == s
    ensures r.0.Ok? ==> r.0.value == r.1.coins
  {
    if !hour && !second then (Err(NoBonusSelected), s)
    else if hour && !OfflineReady(s, now) then (Err(OfflineBonusNotReady), s)
    else
      var s1 := if hour then OfflineBonus(s, now) else s;
      var s2 := if second then PerSecondBonus(s1, now) else s1;
      (Ok(s2.coins), s2)
  }

  /** Both bonuses at once: the offline reward plus the seconds since the
      cursor at the unchanged income rate; the window restarts at now and the
      cursor moves to now. */
  lemma BothBonuses(s: PlayerState, now: int)
    requires OfflineReady(s, now)
    ensures var (r, s') := GetBonus(s, true, true, now);
            && r.Ok?
            && s'.coins == s.coins + s.offlineCoins +
                 (if s.finishSecondCoins.Some?
                  then WholeSecondsBetween(s.finishSecondCoins.value, now) * s.coinsInSecond else 0)
            && s'.startOfflineCoins == Some(now)
            && s'.finishOfflineCoins == Some(now + OfflineWindow)
            && s'.finishSecondCoins == Some(now)
            && s' == s.(coins := s'.coins, startOfflineCoins := s'.startOfflineCoins,
                        finishOfflineCoins := s'.finishOfflineCoins, finishSecondCoins := s'.finishSecondCoins)
  {
  }

  /** The offline bonus alone: the flat reward is added and the window
      restarts at now; the answer is the new balance. */
  lemma OfflineOnly(s: PlayerState, now: int)
    requires OfflineReady(s, now)
    ensures var (r, s') := GetBonus(s, true, false, now);
            && r == Ok(s.coins + s.offlineCoins)
            && s'.coins == s.coins + s.offlineCoins
            && s'.startOfflineCoins == Some(now)
            && s'.finishOfflineCoins == Some(now + OfflineWindow)
            && s' == s.(coins := s'.coins, startOfflineCoins := s'.startOfflineCoins,
                        finishOfflineCoins := s'.finishOfflineCoins)
  {
  }

  /** The per-second bonus alone is never refused: the whole seconds since
      the cursor times the income rate are added (nothing without a cursor),
      the cursor moves to now, and the answer is the new balance. */
  lemma PerSecondOnly(s: PlayerState, now: int)
    ensures var (r, s') := GetBonus(s, false, true, now);
            && r == Ok(s'.coins)
            && s'.coins == s.coins +
                 (if s.finishSecondCoins.Some?
                  then WholeSecondsBetween(s.finishSecondCoins.value, now) * s.coinsInSecond else 0)
            && s' == s.(coins := s'.coins, finishSecondCoins := Some(now))
  {
  }

  /** The first per-second collection only starts the clock. */
  lemma FirstPerSecondAwardsNothing(s: PlayerState, now: int)
    requires s.finishSecondCoins.None?
    ensures GetBonus(s, false, true, now).1 == s.(finishSecondCoins := Some(now))
  {
  }

  /** The cursor prevents double collection: collecting again at the same
      instant adds nothing. */
  lemma PerSecondAtSameInstantAddsNothing(s: PlayerState, now: int)
    ensures PerSecondBonus(PerSecondBonus(s, now), now) == PerSecondBonus(s, now)
  {
  }

  /** Collecting in two steps never pays more than collecting once at the
      later instant: each collection drops the fraction of a second. */
  lemma {:induction false} SplitCollectionNeverPaysMore(s: PlayerState, mid: int, now: int)
    requires s.coinsInSecond >= 0
    requires s.finishSecondCoins.Some? && s.finishSecondCoins.value <= mid <= now
    ensures PerSecondBonus(PerSecondBonus(s, mid), now).coins <= PerSecondBonus(s, now).coins
  {
    var c := s.finishSecondCoins.value;
    var x, y, z := WholeSecondsBetween(c, mid), WholeSecondsBetween(mid, now), WholeSecondsBetween(c, now);
    SplitSecondsNeverExceed(c, mid, now);
    assert x * s.coinsInSecond + y * s.coinsInSecond == (x + y) * s.coinsInSecond;
    assert (x + y) * s.coinsInSecond <= z * s.coinsInSecond by {
      assert (z - (x + y)) * s.coinsInSecond >= 0;
    }
  }

  /** The per-second bonus does not clamp a negative elapsed time: with the
      cursor two seconds in the future and an income of one coin per second,
      collecting takes two coins away. */
  lemma PerSecondBeforeCursorDebits(s: PlayerState, now: int)
    requires s.finishSecondCoins == Some(now + 2 * MicrosPerSecond) && s.coinsInSecond == 1
    ensures GetBonus(s, false, true, now).1.coins == s.coins - 2
  {
  }

  /** Claiming the daily bonus keeps the player's invariant when the reward
      table has no negative entry. */
  lemma LoginTodayFlagKeepsValid(s: PlayerState, now: int, table: BonusTable)
    requires PlayerValid(s)
    requires RewardsNonNegative(table)
    ensures PlayerValid(LoginTodayFlag(s, now, table))
    ensures LoginTodayFlag(s, now, table).coins >= s.coins
  {
    UpdateKeepsValid(s, now, table);
  }

  /** The offline bonus keeps the invariant and never lowers the balance. */
  lemma OfflineBonusKeepsValid(s: PlayerState, now: int)
    requires PlayerValid(s)
    ensures PlayerValid(OfflineBonus(s, now))
    ensures OfflineBonus(s, now).coins >= s.coins
  {
  }

  /** The per-second bonus keeps the invariant and never lowers the balance,
      provided the cursor is not in the future (see the lemma above for what
      happens otherwise). */
  lemma PerSecondBonusKeepsValid(s: PlayerState, now: int)
    requires PlayerValid(s)
    requires s.finishSecondCoins.Some? ==> s.finishSecondCoins.value <= now
    ensures PlayerValid(PerSecondBonus(s, now))
    ensures PerSecondBonus(s, now).coins >= s.coins
  {
    if s.finishSecondCoins.Some? {
      var n := WholeSecondsBetween(s.finishSecondCoins.value, now);
      assert n * s.coinsInSecond >= 0;
    }
  }

  /** `GetBonus.post` keeps the invariant and never lowers the balance when
      the per-second cursor is not in the future. */
  lemma GetBonusKeepsValid(s: PlayerState, hour: bool, second: bool, now: int)
    requires PlayerValid(s)
    requires s.finishSecondCoins.Some? ==> s.finishSecondCoins.value <= now
    ensures PlayerValid(GetBonus(s, hour, second, now).1)
    ensures GetBonus(s, hour, second, now).1.coins >= s.coins
  {
    if (hour || second) && (!hour || OfflineReady(s, now)) {
      var s1 := if hour then OfflineBonus(s, now) else s;
      OfflineBonusKeepsValid(s, now);
      if second {
        PerSecondBonusKeepsValid(s1, now);
      }
    }
  }
}
