# Dog-breeding idle clicker: player economy and dog lifecycle

This project models the core of the backend of a Telegram idle-clicker game
where players buy and breed dogs on a playing field of twelve places. It
covers the player's coin economy and the dogs' lifecycle:

- the daily login streak and its table-driven coin reward
  (`Player.update_daily_status`, the `LoginTodayFlag` handler and the
  scheduled `reset_login_today` task);
- the offline bonus, which can be collected once its three-hour window has
  closed, and the per-second bonus, which pays whole elapsed seconds at the
  player's income rate (the `GetBonus` handler);
- the dog classmethods: fetching or creating the inactive preview dog,
  finding the first free place, buying a dog, the two recomputations of the
  preview dog, and breeding pairs of dogs (including the empty-list guard of
  the breeding handler);
- registration and login with an optional referral (`PlayerInfo.get`).

The model has two layers:

- **Specification modules** describe each operation as a function over value
  snapshots. They are `Clock`, `Numeric`, `DailyBonuses`, `Records`, `Streak`,
  `Ledger`, `Breeding`, `Bonuses` and `Registration`.
  - A `PlayerState` holds one player row together with that player's dog rows,
    keyed by dog id.
  - A `StoreState` holds the player rows keyed by Telegram id, plus the
    referral rows.
  - The lemmas about these functions state what the source promises:
    - the invariant (`PlayerValid`, `StoreValid`) is preserved;
    - the accounting of a purchase and of a breed;
    - the streak arithmetic over consecutive days;
    - idempotence of the accessors;
    - the error cases.
- **Imperative modules** mirror the source's objects.
  - `Models` holds the class `Player`, whose methods update its fields in
    place, and the dog classmethods as methods over a `Player`.
  - `Views` holds the request handlers and the class `Store`, which holds the
    tables `PlayerInfo.get` touches.
  - Each method's postcondition ties its new state, and its result, to the
    matching specification function applied to the old state.
  - The loops of `find_free_field` and `breed_dogs` are `while` loops with
    their invariants.
- `Scenarios` states worked examples: a first purchase, a per-second
  collection, an early offline request and a two-pair breed.

Conventions:

- Instants are integer microseconds, and dates are day numbers.
- A date is taken after the source's four-hour shift.
- `percent_up_price` is kept in tenths of a percent (7.0 becomes 70, and
  17.5 becomes 175).
- Python's truncating `int()` is written out, because Dafny's division is
  Euclidean.

Where the code behaves in a way a reader might not expect, the model follows
the code:

- The per-second bonus does not clamp a negative elapsed time.
  - A cursor in the future debits coins (`Bonuses.PerSecondBeforeCursorDebits`).
  - The invariant-keeping lemma therefore requires the cursor to be in the past.
- The survivor of a breed is whichever dog the database returns first.
  - Which one that is gets passed in as the set `swapped` of pair indices in
    which the higher id comes first.
  - In id order, the lower id survives.
- `PlayerInfo.get` with a referrer that is not registered fails after the new
  player was created and stored.
  - The source raises an uncaught lookup error at that point.
  - The model gives `Err(ReferrerNotFound)` with the new player kept.
  - A self-referral also keeps the new player.
  - A referral id of 0 counts as absent, because the source tests it for
    truth.
- A Telegram id that is already registered under another name makes
  `get_or_create` attempt an insert, which the unique constraint refuses.
  This is modelled as `Err(TgIdTaken)` with nothing changed.
- The breeding batch is not atomic.
  - Pairs accepted before a refused pair stay applied.
  - The preview dog is then not recomputed (`Breeding.RefusalKeepsCommittedPairs`).

## Model

| member | source | states |
|---|---|---|
| Clock.DateOf | app_core/models.py:44-48 | the date is the day number d with d days <= now + 4h < d + 1 days |
| Clock.WholeSecondsBetween | app_core/views.py:183-186 | whole seconds elapsed, truncated toward zero: non-negative and bounded by the elapsed time when it is forward, non-positive when it is backward |
| Clock.NextDate | app_core/models.py:44-48 | an instant one day later falls on the next date |
| Clock.SecondsBetweenReversed | app_core/views.py:183-186 | swapping the two instants negates the whole seconds, because `int()` truncates toward zero |
| Clock.SplitSecondsNeverExceed | app_core/views.py:183-186 | the whole seconds of two consecutive intervals never add up to more than those of the joined interval |
| Numeric.TruncDivNegate | app_core/views.py:186 | `int()` of a quotient is odd, so a negative quotient is rounded up |
| DailyBonuses.FirstEntry | app_core/models.py:60 | the generator stops at the first entry for the day (every earlier entry is for another day), or at the end when there is none |
| DailyBonuses.RewardFor | app_core/models.py:60-61 | with a table of non-negative rewards the daily reward is non-negative |
| DailyBonuses.RewardOfFirstEntry | app_core/models.py:60-61 | the reward is the coins of the first entry for the day; later entries for that day are ignored |
| DailyBonuses.RewardOfMissingDay | app_core/models.py:60-61 | a day without an entry pays 0 |
| Records.MaxActiveLevel | app_core/models.py:141-144 | the result bounds every active dog's level and is reached by one of them; it is 1 when there is no active dog |
| Records.FreeField | app_core/models.py:93-104 | a found place is in 1..12, held by no active dog, with every earlier place held; nothing is found exactly when all twelve places are held |
| Records.FreeFieldFrom | app_core/models.py:101-104 | the result is a place in f..12 that no active dog holds, with every place before it held; it is None exactly when every place f..12 is held |
| Records.OccupiedPlacesCount | app_core/models.py:97-99 | under the invariant the held places are as many as the active dogs, all within 1..12 |
| Records.ActiveAtMostFieldCount | app_core/models.py:110-111 | under the invariant there are never more than twelve active dogs |
| Records.FreeFieldNoneIffFull | app_core/models.py:93-104 | `find_free_field` finds nothing exactly when twelve dogs are active |
| Streak.UpdateDailyStatus | app_core/models.py:38-63 | with the bonus still pending: the streak grows by one after a login on the previous date and restarts at 1 otherwise, the reward for the new streak day is added, today's date is recorded and nothing else changes; with the bonus already claimed nothing changes |
| Streak.UpdateKeepsValid | app_core/models.py:38-63 | with non-negative rewards the update keeps the player's invariant and never lowers the balance |
| Bonuses.LoginTodayFlag | app_core/views.py:114-124 | after the claim the daily bonus flag is cleared |
| Bonuses.ResetDailyBonus | app_core/tasks.py:5-8 | after the reset the daily bonus flag is set |
| Bonuses.SecondClaimChangesNothing | app_core/views.py:121-123 | a second claim before the reset changes nothing |
| Bonuses.NextDayClaim | app_core/models.py:53-62 | a claim after the reset, on the day after the last login, extends the streak by one, pays that day's reward and records today |
| Bonuses.ConsecutiveClaims | app_core/models.py:50-62 | n claims on successive days, each after the reset, raise the streak by n and pay the sum of the rewards for the n streak days |
| Bonuses.MissedDayRestartsStreak | app_core/models.py:55-57 | a claim on a day that does not follow the last login restarts the streak at 1 and pays the day-1 reward |
| Bonuses.GetBonus | app_core/views.py:161-203 | neither flag is refused (exactly then); a requested offline bonus that is not ready is refused (exactly then); a refusal changes nothing; on success the answer is the new balance |
| Bonuses.OfflineBonus | app_core/views.py:172-176 | the offline reward is added, the window restarts as [now, now + 3h] and is then not ready; nothing else changes |
| Bonuses.PerSecondBonus | app_core/views.py:179-190 | without a cursor the balance is kept; with one, whole seconds since it times the rate are added; the cursor moves to now and nothing else changes |
| Bonuses.OfflineOnly | app_core/views.py:171-178 | with only the offline flag and the window closed, the answer is the balance plus the offline reward, the window restarts at now and nothing else changes |
| Bonuses.PerSecondOnly | app_core/views.py:179-190 | with only the per-second flag, the answer is the new balance: whole seconds since the cursor times the rate are added, the cursor moves to now and nothing else changes |
| Bonuses.BothBonuses | app_core/views.py:171-190 | with both flags: the offline reward plus whole seconds times the rate is added, the window restarts at now, the cursor moves to now and nothing else changes |
| Bonuses.FirstPerSecondAwardsNothing | app_core/views.py:182-189 | without a cursor the per-second bonus only sets the cursor to now |
| Bonuses.PerSecondAtSameInstantAddsNothing | app_core/views.py:179-190 | collecting again at the same instant adds nothing |
| Bonuses.SplitCollectionNeverPaysMore | app_core/views.py:181-189 | collecting at an intermediate instant and then at now never pays more than collecting once at now |
| Bonuses.PerSecondBeforeCursorDebits | app_core/views.py:183-187 | the elapsed time is not clamped: with the cursor two seconds in the future and a rate of 1, two coins are taken |
| Bonuses.LoginTodayFlagKeepsValid | app_core/views.py:121-123 | the daily claim keeps the invariant and never lowers the balance (rewards non-negative) |
| Bonuses.OfflineBonusKeepsValid | app_core/views.py:172-176 | the offline bonus keeps the invariant and never lowers the balance |
| Bonuses.PerSecondBonusKeepsValid | app_core/views.py:179-190 | with the cursor not in the future the per-second bonus keeps the invariant and never lowers the balance |
| Bonuses.GetBonusKeepsValid | app_core/views.py:161-203 | the bonus request keeps the invariant and never lowers the balance (cursor not in the future) |
| Ledger.GetOrCreateVirtualDog | app_core/models.py:85-91 | the returned dog is inactive; an existing preview dog (the lowest id) is returned without change, otherwise one with the column defaults is inserted under the next id |
| Ledger.VirtualDogIdempotent | app_core/models.py:85-91 | asking again returns the same dog and creates nothing |
| Ledger.VirtualDogKeepsValid | app_core/models.py:85-91 | the accessor keeps the invariant, leaves the active dogs untouched, and the returned dog is then the only preview dog |
| Ledger.NextVirtualLevel | app_core/models.py:146 | the next level is 1 below level 5 and m // 5 + 1 from level 5 on; it never exceeds the highest level |
| Ledger.UpdateVirtualDog | app_core/models.py:136-154 | only the preview dog changes; it stays inactive and takes the level step of `LevelRule` (level, per-second and breeding bonus), its price grows by its old percent, and its percent becomes 17.5 exactly at level 2 |
| Ledger.UpdateVirtualDogLevel | app_core/models.py:156-172 | only the preview dog changes; it stays inactive and takes the level step of `LevelRule` with its price kept; when the highest active level reaches its level it moves to the next level; its percent becomes 17.5 exactly when the step fires to level 2 and is kept otherwise |
| Ledger.LevelRule | app_core/models.py:145-148 | below the preview dog's level nothing changes; otherwise the level is recomputed, the per-second bonus is multiplied by it and the breeding bonus becomes level - 1; price, percent and place are kept |
| Ledger.GrownPrice | app_core/models.py:149 | the price grows by the percent, truncated: p * 1000 <= price * (1000 + tenths) < (p + 1) * 1000 |
| Ledger.VirtualPriceNeverDecreases | app_core/models.py:136-154 | `update_virtual_dog` changes only the preview dog, whose price grows by its percent and never decreases |
| Ledger.LevelRecomputeKeepsPrice | app_core/models.py:156-172 | `update_virtual_dog_level` never changes a price, and changes nothing when every active dog is below the preview dog's level |
| Ledger.VirtualBonusCompounds | app_core/models.py:145-147 | with the highest active level in 5..9 each price recomputation keeps the preview dog at level 2 and doubles its per-second bonus again |
| Ledger.ReplaceVirtualKeepsValid | app_core/models.py:153 | saving a valid inactive preview dog keeps the invariant and the active dogs |
| Ledger.LevelRuleKeepsDogValid | app_core/models.py:145-152 | the level step keeps a dog row valid |
| Ledger.UpdateVirtualDogKeepsValid | app_core/models.py:136-154 | the price recomputation keeps the invariant and leaves every active dog as it was |
| Ledger.UpdateVirtualDogLevelKeepsValid | app_core/models.py:156-172 | the level recomputation keeps the invariant and leaves every active dog as it was |
| Ledger.Purchase | app_core/models.py:114-129 | the price is debited and added to the spent-today counter, the rate grows by the preview bonus, exactly one active dog with the preview level and price is added in the first free place under the next id, every other row is kept, and no other player column changes |
| Ledger.CreateDog | app_core/models.py:106-134 | a bought dog is active, stored, and its price is what the balance lost; at the dog limit nothing changes |
| Ledger.CreateDogRefusals | app_core/models.py:110-134 | refused at twelve or more active dogs (exactly then, and nothing changes); refused for too few coins exactly when below twelve and the balance is under the preview price (then only the preview dog may have been created) |
| Ledger.InsertActiveKeepsValid | app_core/models.py:120-129 | inserting an active dog in a free place under the next id keeps the dog table valid and adds exactly that dog |
| Ledger.PurchaseKeepsValid | app_core/models.py:114-129 | the debit and insertion on a valid player with a free place and enough coins keep the invariant and add exactly one active dog |
| Ledger.CreateDogKeepsValid | app_core/models.py:106-134 | a purchase keeps the invariant; a successful one adds exactly one active dog under a new id, the active count grows by one and stays at most twelve, and existing active dogs are untouched |
| Ledger.PurchaseKeepsPreview | app_core/models.py:120-129 | inserting the bought dog leaves the preview dog as it was |
| Ledger.UpdateVirtualDogKeepsPreviewId | app_core/models.py:136-154 | after the price recomputation the accessor returns the same preview dog and creates nothing |
| Ledger.CreateDogGrowsPreviewPrice | app_core/models.py:106-134 | after a purchase the preview dog keeps its id, and its price is the old price grown by its percent, never lower |
| Ledger.CreateDogAccounting | app_core/models.py:114-129 | a successful purchase takes exactly the preview price (the balance stays non-negative), adds it to the spent-today counter, raises the income rate by the preview dog's bonus, creates an active copy of the preview dog's stats in the first free place, and changes no other player column |
| Breeding.BreedRequest | app_core/views.py:362-366 | an empty list of pairs is refused and nothing changes; otherwise the new state and the survivors are those of `breed_dogs`, and a refusal carries its reason |
| Breeding.MergeKeepsValid | app_core/models.py:190-197 | merging two distinct active dogs keeps the invariant, removes exactly the deleted dog from the active dogs and lowers the active count by one |
| Breeding.Merge | app_core/models.py:190-197 | the deleted row is gone, the survivor is one level up, the rate grows by its old level, and nothing else changes |
| Breeding.MergeRows | app_core/models.py:190-194 | a merge leaves every row other than the survivor and the deleted dog as it was |
| Breeding.MergeEffect | app_core/models.py:190-197 | merging two distinct active dogs deletes only the dropped row, keeps every other row but the survivor, lowers the active count by one, raises the rate by the survivor's new level minus one and keeps the invariant |
| Breeding.BreedPair | app_core/models.py:180-197 | an accepted pair names exactly two active dogs, and the returned survivor is one of them, still stored, one level up |
| Breeding.BreedPairEffect | app_core/models.py:180-197 | a pair is accepted exactly when it names two active dogs of equal level; then the survivor gains one level, the other row is deleted, every other row stays, the active count drops by one, the income rate grows by the new level - 1, nothing else changes and the invariant holds |
| Breeding.BreedPairRefusals | app_core/models.py:184-188 | a pair naming other than two active dogs is refused with that count; two dogs of different levels are refused as a level mismatch |
| Breeding.BreedFrom | app_core/models.py:178-197 | the loop allocates no dog id |
| Breeding.BreedFromCreatesNoRow | app_core/models.py:178-197 | the loop only upgrades and deletes: it creates no row |
| Breeding.BreedFromKeepsValid | app_core/models.py:178-197 | the loop keeps the invariant and never lowers the income rate; when every remaining pair is accepted, each adds one survivor and removes one active dog |
| Breeding.BreedDogs | app_core/models.py:174-200 | at most one id is allocated (for a preview dog), and none when a pair is refused |
| Breeding.BreedDogsCreatesNoDog | app_core/models.py:174-200 | the only row breeding can create is the preview dog under the next id, and a refused batch creates none |
| Breeding.BreedDogsEffect | app_core/models.py:174-200 | `breed_dogs` keeps the invariant and never lowers the income rate; on success there is one survivor per pair and the active count drops by the number of pairs |
| Breeding.BreedPairKeepsPreview | app_core/models.py:180-197 | an accepted pair leaves the preview dogs as they were |
| Breeding.BreedFromKeepsPreview | app_core/models.py:178-197 | the loop over the pairs leaves the preview dogs as they were |
| Breeding.BreedDogsKeepsPreviewPrice | app_core/models.py:174-200 | an existing preview dog keeps its id and its price through `breed_dogs`, whether it succeeds or is refused part-way |
| Breeding.FirstPairRefusedChangesNothing | app_core/models.py:178-188 | a refused first pair changes nothing at all |
| Breeding.RefusalKeepsCommittedPairs | app_core/models.py:178-199 | a pair refused after accepted pairs leaves those pairs applied and the preview dog not recomputed |
| Registration.NewPlayer | app_core/views.py:46-57 | a new player has the given Telegram id and name, the column defaults (no coins, nothing spent, no offline reward, no referral bonus, level 1, streak and rate 0, both flags set), the offline window [now, now + 3h], the cursor at now and a single default preview dog, and is valid |
| Registration.LogIn | app_core/views.py:71-74 | accepted exactly when the name matches, answering the stored player with its instruction flag cleared and storing that; otherwise refused with nothing changed |
| Registration.Register | app_core/views.py:46-70 | the new player is always stored; on success it is the answer; the referral rows are either kept or gain exactly the one link to the referrer, never on a refusal |
| Registration.PlayerInfoGet | app_core/views.py:44-77 | login with the right name clears the instruction flag and changes nothing else; another name is refused and nothing changes; a new player is always stored; self-referral is refused; a referral to an unknown player is refused; a duplicate link is refused; a referral to another registered player adds exactly one link row; no usable referral id adds no row |
| Registration.DuplicateReferralUnreachable | app_core/views.py:61-68 | in a valid store the duplicate-link refusal never fires for a player the same request registered |
| Registration.PlayerInfoGetKeepsValid | app_core/views.py:44-77 | every outcome keeps the store valid (ids match keys, players valid, links between registered players, no link twice) |
| Registration.LoginTwiceSameAsOnce | app_core/views.py:71-74 | logging in again gives the same answer and changes nothing more |
| Registration.RegisterThenLogin | app_core/views.py:46-74 | a player registered by one request is logged in by the next with only its instruction flag cleared and no new referral row |
| Models.Player.constructor | app_core/models.py:19-36 | a new player row carries the column defaults |
| Models.Player.Load | app_core/models.py:19-36 | the loaded object holds exactly the stored row |
| Models.Player.UpdateDailyStatus | app_core/models.py:38-63 | the fields become those of `Streak.UpdateDailyStatus` on the old row |
| Models.Player.ResetDailyBonus | app_core/tasks.py:5-8 | the row becomes that of `Bonuses.ResetDailyBonus` |
| Models.GetOrCreateVirtualDog | app_core/models.py:85-91 | new row and returned id are those of `Ledger.GetOrCreateVirtualDog` |
| Models.FindFreeField | app_core/models.py:93-104 | the loop over the active dogs and the scan of places 1..12 return `FreeField(dogs)`, the first place no active dog holds |
| Models.CreateDog | app_core/models.py:106-134 | the outcome and new row are those of `Ledger.CreateDog` |
| Models.Purchase | app_core/models.py:114-129 | the debit and insertion give the row `Ledger.Purchase` describes |
| Models.InsertDog | app_core/models.py:120-129 | the new dog is stored under the next id, which then advances; nothing else changes |
| Models.UpdateVirtualDog | app_core/models.py:136-154 | the new row is that of `Ledger.UpdateVirtualDog` |
| Models.UpdateVirtualDogLevel | app_core/models.py:156-172 | the new row is that of `Ledger.UpdateVirtualDogLevel` |
| Models.BreedDogs | app_core/models.py:174-200 | the loop's survivors and new row are those of `Breeding.BreedDogs` |
| Views.LoginTodayFlag | app_core/views.py:114-124 | the new row is that of `Bonuses.LoginTodayFlag` |
| Views.GetBonus | app_core/views.py:161-203 | the answer and new row are those of `Bonuses.GetBonus` |
| Views.BreedRequest | app_core/views.py:357-366 | the answer and new row are those of `Breeding.BreedRequest` |
| Views.NewPlayer | app_core/views.py:46-57 | a fresh object whose row is `Registration.NewPlayer` |
| Views.Store.constructor | app_core/models.py:207-214 | the referral table (`ReferralSystem`) and the player table (`Player`, models.py:19-36) start empty |
| Views.Store.PlayerInfoGet | app_core/views.py:44-77 | the answer and new tables are those of `Registration.PlayerInfoGet` |
| Views.Store.LogIn | app_core/views.py:71-74 | the registered-id branch: the answer and new tables are those of `Registration.LogIn` |
| Views.Store.Register | app_core/views.py:46-70 | the new-id branch: the answer and new tables are those of `Registration.Register` |
| Scenarios.FirstPurchase | app_core/models.py:106-154 | a new player with 150 coins buys dog 1 at level 1 in place 1 for 100 coins; the rate becomes 3 and the next preview price 107 |
| Scenarios.TenSecondsAtFive | app_core/views.py:179-190 | five coins a second over ten seconds pay exactly 50 |
| Scenarios.OfflineTooEarly | app_core/views.py:171-178 | an offline request before the window closes is refused and changes nothing |
| Scenarios.OrderedPair | app_core/models.py:180-197 | two active dogs of equal level in id order: the lower id survives, the invariant holds and one active dog fewer remains |
| Scenarios.TwoPairs | app_core/models.py:174-200 | breeding level-3 and level-5 pairs gives survivors at levels 4 and 6, removes the other two, and raises the rate by 3 + 5 |

## Left out

- Loading the daily bonus table from its JSON file (`load_daily_bonuses`) is
  left out. The table is a parameter.
- A table entry without a `coins` key (`bonus.get("coins", 0)`) cannot be
  written in the model: every entry has both fields.
- Database access is not modelled: the ORM, `async`/`await` and saving rows
  with `asave(update_fields=...)`. Each method updates the object in place,
  and a `Store` holds the player rows.
- Concurrent requests are not modelled.
- The 404 branches of the handlers are left out. Each handler receives the
  player that was looked up.
- The handlers read the clock several times. The model reads it once, as the
  parameter `now`.
- Time zones are left out; instants are plain microsecond counts.
- `percent_up_price` is a float in the source. It is modelled in tenths of a
  percent, which holds its only values, 7.0 and 17.5, exactly.
- The 32-bit range of the `IntegerField` columns is not modelled.
  - On the player these are `daily_bonus_friends`, `consecutive_days`,
    `offline_coins`, `coins_in_second` and `lvl`.
  - On the dog they are `lvl`, `price`, `bonus_second`, `bonus_connection`
    and `dog_field`.
  - The model holds them as unbounded integers, so a save that the database
    would refuse for a value above 2^31 - 1 goes through in the model.
  - For example, `Ledger.VirtualBonusCompounds` shows the preview dog's
    `bonus_second` doubling with each purchase while the highest level
    stays in 5..9. After about thirty such purchases the source's save
    fails, while the model carries on.
- The `PositiveBigIntegerField` range checks of the database are not
  modelled. The non-negative balance is instead part of the `PlayerValid`
  invariant and is proved to be preserved.
- Dog ids come from a counter per player. In the source they come from a
  global auto-increment, and every query in the core filters by player.
- The row order that decides which dog survives a breed is a parameter (`swapped`).
- The breeding result is the survivors' ids rather than the dog objects.
- Serializers, response bodies and messages, the dog `name`, the
  `registration_date` and `lvl` of the player, `offline_coins` being
  assigned anywhere, and the `DogsPlayer.get`/`post` handlers are not part
  of this model.
- The websocket consumers, the admin and the settings are not part of this
  model.
- `reset_login_today` updates every player row. The model resets one player
  (`Models.Player.ResetDailyBonus`). The reset over all rows is that step
  applied to each row.
