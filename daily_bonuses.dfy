/** The day -> coins table of the daily login bonus. Loading it from its JSON
    file is not modelled: the table is passed in. */
module DailyBonuses {

  /** One `{"day": ..., "coins": ...}` entry of the table. */
  datatype BonusEntry = BonusEntry(day: int, coins: int)

  type BonusTable = seq<BonusEntry>

  predicate RewardsNonNegative(table: BonusTable) {
    forall i | 0 <= i < |table| :: table[i].coins >= 0
  }

  /** Where the generator `(b for b in table if b["day"] == day)` stops when
      it is started at position `from`: the first entry for `day` at or
      after `from`, or `|table|` when there is none. */
  function FirstEntry(table: BonusTable, day: int, from: nat): (k: nat)
    requires from <= |table|
    ensures from <= k <= |table|
    ensures k < |table| ==> table[k].day == day
    ensures forall j | from <= j < k :: table[j].day != day
    decreases |table| - from
  {
    if from == |table| || table[from].day == day then from
    else FirstEntry(table, day, from + 1)
  }

  /** `next((b for b in table if b["day"] == day), {"coins": 0})["coins"]`. */
  function RewardFor(table: BonusTable, day: int): (c: int)
    ensures RewardsNonNegative(table) ==> c >= 0
  {
    var k := FirstEntry(table, day, 0);
    if k < |table| then table[k].coins else 0
  }

  /** The reward is that of the FIRST entry for the day: later entries for
      the same day are ignored. */
  lemma RewardOfFirstEntry(table: BonusTable, day: int, i: int)
    requires 0 <= i < |table| && table[i].day == day
    requires forall j | 0 <= j < i :: table[j].day != day
    ensures RewardFor(table, day) == table[i].coins
  {
  }

  /** A day the table does not list is worth no coins. */
  lemma RewardOfMissingDay(table: BonusTable, day: int)
    requires forall i | 0 <= i < |table| :: table[i].day != day
    ensures RewardFor(table, day) == 0
  {
  }
}
