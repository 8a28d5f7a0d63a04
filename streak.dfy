/** `Player.update_daily_status`: the daily login streak and its coin reward. */
module Streak {
  import opened Wrappers
  import opened Clock
  import opened DailyBonuses
  import opened Records

  /** The player after `update_daily_status(now)`. When the day's bonus is
      still pending, the streak grows by one if the last login was on the
      previous (shifted) calendar day and restarts at 1 otherwise; the reward
      for the new streak day is added and today's date recorded. The method
      itself leaves `daily_bonus` alone. */
  function UpdateDailyStatus(s: PlayerState, now: int, table: BonusTable): (r: PlayerState)
    ensures !s.dailyBonus ==> r == s
    ensures s.dailyBonus ==> r.lastLoginDate == Some(DateOf(now))
    ensures s.dailyBonus && s.lastLoginDate == Some(DateOf(now) - 1) ==>
              r.consecutiveDays == s.consecutiveDays + 1
    ensures s.dailyBonus && s.lastLoginDate != Some(DateOf(now) - 1) ==> r.consecutiveDays == 1
    ensures s.dailyBonus ==> r.coins == s.coins + RewardFor(table, r.consecutiveDays)
    ensures r == s.(consecutiveDays := r.consecutiveDays, coins := r.coins, lastLoginDate := r.lastLoginDate)
  {
    var today := DateOf(now);
    if !s.dailyBonus then s
    else
      var streak :=
        if s.lastLoginDate.Some? && today - s.lastLoginDate.value == 1
        then s.consecutiveDays + 1
        else 1;
      s.(consecutiveDays := streak,
         coins := s.coins + RewardFor(table, streak),
         lastLoginDate := Some(today))
  }

  /** With a table of non-negative rewards the update keeps the player's
      invariant, and in particular never lowers the balance. */
  lemma UpdateKeepsValid(s: PlayerState, now: int, table: BonusTable)
    requires PlayerValid(s)
    requires RewardsNonNegative(table)
    ensures PlayerValid(UpdateDailyStatus(s, now, table))
    ensures UpdateDailyStatus(s, now, table).coins >= s.coins
  {
  }
}
