# dqwm-egui battle core, modelled in Dafny

This project models the battle core of dqwm-egui, a small auto-battler that runs in the background. Each side of a
battle is a *formation*: a list of columns, each one a queue of units, with the front of a queue first. A game
service thread receives commands: build two test armies, start a battle, stop a battle, stop the service. While
a battle runs, the thread calls `battle_run` repeatedly. Each call is one tick. A tick does five things:

- It checks for victory.
- The friendly side, then the enemy side, collects attacks from the first three ranks of every column.
- It applies the attacks.
- It removes dead units from the front of each column.
- It refills an empty column with the back unit of the longest column.

The model also covers the formation builders (`Unit::test` and `determine_columns`) and the colour parser
`hex_to_tuple` together with its fallback in `bg_svg`.

Modules:

- `Optional` (in `columns.dfy`): the `Option` type.
- `Columns`: formations as `seq<seq<T>>`, `Concat` (every unit, column by column), and the round-robin
  distribution `push_back` to column `i % n` that both `test(num)` builders use. It has the loop method
  `Distribute` and the specification function `RoundRobin`, with lemmas about where each unit lands, column
  lengths, balance, and that no unit is lost or duplicated.
- `App` (`src/app/mod.rs`): `determine_columns`, the `div_ceil` block fill of the fixed 200-unit test formation,
  and a proof that the fill's fall-back branch to the last column is never taken.
- `Domain` (`src/domain/battle.rs`): the battle `Unit`, the global id counter `NEXT_UNIT_ID` as the class
  `IdCounter`, `Unit::new`, and `Unit::test(num)`.
- `Model` (`src/model.rs`): the clockless unit record, its `test(num)`, and a proof that it lays out the same
  units as the domain builder.
- `Engine` (`battle_run` in `src/app/service.rs`):
  - The victory check (`Judge`).
  - Attack collection: the specification function `Planned` and the loop method `CollectSide`.
  - Attack application: `Strike`, `ResolveAll`, and the loop method `ApplyAttacks`.
  - Front cleanup: `Cleanup` and `CleanupFormation`.
  - Refill: `Rebalance` and `Refill`.
  - The whole tick (`Tick`), and the shared `Army` class whose `BattleRun` updates both formations in place.
- `Service` (`src/app/service.rs`):
  - The command handler (`Handle`).
  - `run_battle` (`Battle`) and the service loop (`Serve`), as functions over a schedule of inputs.
  - The `GameService` class, whose methods update its flags and the shared army in place. Each method is proved
    against those functions.
- `HexColor` (`src/utils/img.rs`, duplicated verbatim in `src/svg_utils.rs`): `hex_to_tuple` over the UTF-8 bytes
  of its argument. It has three outcomes: a colour, a `ParseIntError`, or a panic from slicing.
  - The `u8::from_str_radix(_, 16)` rules are written out: an optional single `+`, and no empty input.
  - The `bg_svg` fallback is modelled.
  - A hex encoder whose output the parser inverts is included.

Behaviour worth knowing, as the code has it:

- **Victory check.** It scans every unit of every column (`col.iter().any`). Only attack collection is
  limited to the first three ranks.
- **Target columns.** A target column is any column holding a unit with hp left. Its front unit may be dead. In
  that case the attack's guard fails and the attack does nothing.
- **`StopBattle` has no effect.** `run_battle` only returns once the battle flag is down again. The loop reads
  commands only between `run_battle` calls, so a `StopBattle` is always read while no battle runs, and it
  never stops a running battle. `Service.StopBattleIgnored` proves that removing every `StopBattle` from the
  input changes nothing.
- **`start_battle` refuses a second start.** While the battle flag is up, it changes nothing.

## Model

| member | source | states |
|---|---|---|
| Columns.RoundRobin | src/domain/battle.rs:57-59 | the specification of the push_back loop always builds n columns (placement is `RoundRobinPlacement`) |
| Columns.Distribute | src/domain/battle.rs:54-60 | the push_back loop builds exactly the round-robin columns `RoundRobin(units, n)` |
| Columns.RoundRobinPlacement | src/domain/battle.rs:57-59 | unit k (0-based) stands in column k mod n at rank k / n |
| Columns.RoundRobinAt | src/domain/battle.rs:57-59 | rank r of column c holds unit r * n + c, which exists |
| Columns.RoundRobinLength | src/domain/battle.rs:57-59 | column c holds \|units\| / n units, plus one if c < \|units\| mod n |
| Columns.RoundRobinTotal | src/domain/battle.rs:54-60 | the columns hold exactly the given units as a multiset: none lost, none duplicated |
| Columns.RoundRobinCount | src/domain/battle.rs:54-60 | the columns hold \|units\| units in all |
| Columns.RoundRobinBalanced | src/domain/battle.rs:57-59 | column lengths differ by at most one, and lower-index columns are never the shorter |
| Columns.RoundRobinNoEmptyColumn | src/domain/battle.rs:54-60 | with at least as many units as columns, no column is empty |
| Columns.RoundRobinKeepsOrder | src/domain/battle.rs:57-59 | within a column, units keep the order in which they were pushed |
| Columns.InConcat | src/domain/battle.rs:54-60 | a unit belongs to a formation iff it stands at some (column, rank) |
| App.Fill | src/app/mod.rs:34-41 | the specification of the fill loop, fall-back branch included, always builds n columns |
| App.AppUnitAt | src/app/mod.rs:14-20 | unit i of the 200 is at full health, has no defence when i is odd, and attacks harder than it defends |
| App.Decimal | src/app/mod.rs:15 | `format!("{}", i)`: digits only, never empty, no leading zero |
| App.DecimalRoundTrip | src/app/mod.rs:15 | reading the rendered digits back gives the number |
| App.DecimalInjective | src/app/mod.rs:15 | different numbers render differently |
| App.TestUnits | src/app/mod.rs:13-21 | 200 units, each at full health and attacking harder than it defends |
| App.AppUnitsDistinct | src/app/mod.rs:14-18 | units with different indices carry different names, and the higher index attacks harder |
| App.TestUnitsDistinct | src/app/mod.rs:13-21 | the 200 units have pairwise different names and strictly increasing attack |
| App.Block | src/app/mod.rs:30-38 | units [c * rows, (c + 1) * rows) clipped to the units: the column c the fill loop builds (size in `BlockSize`) |
| App.BlockSize | src/app/mod.rs:30-38 | block c holds at most rows units, exactly rows when the units reach its end, and none past the units |
| App.DetermineColumns | src/app/mod.rs:51-60 | the column count is between 1 and 6, and never more than the number of units when there are any |
| App.DetermineColumnsMonotone | src/app/mod.rs:51-60 | more units never gives fewer columns |
| App.DivCeil | src/app/mod.rs:30 | rows = ceil(n / d): d * rows covers n, and one row fewer would not |
| App.BlockIndexInRange | src/app/mod.rs:30-41 | with rows = ceil(n / n_cols), every index / rows is below n_cols, so the fall-back to the last column is dead code |
| App.BlockFill | src/app/mod.rs:33-42 | the fill loop builds n_cols columns: column c is units [c * rows, (c + 1) * rows), and together they give back the units in order |
| App.FillMeetsContract | src/app/mod.rs:30-42 | the specification of the fill loop is the block split, and it concatenates back to the units |
| App.FilledAreBlocks | src/app/mod.rs:33-42 | once every unit is placed, the columns are the blocks and concatenate back to the units |
| App.ConcatBlocks | src/app/mod.rs:33-42 | the first m blocks, concatenated, are the first m * rows units |
| App.BlockIndex | src/app/mod.rs:35 | index / rows picks the one block of rows units that contains index |
| App.Test | src/app/mod.rs:11-45 | 200 units in six columns, five of 34 and one of 30, unit 34c + j + 1 at rank j of column c, concatenating back to units 1..200 |
| Domain.IdCounter.constructor | src/domain/battle.rs:1 | the counter starts at 1 |
| Domain.IdCounter.Take | src/domain/battle.rs:18 | fetch_add(1) returns the old value and advances the counter by one |
| Domain.NewUnit | src/domain/battle.rs:16-27 | Unit::new takes the next id, sets max_hp to hp, and makes the unit ready to attack now |
| Domain.TestUnit | src/domain/battle.rs:42-51 | test unit i carries the given id and has hp = max_hp = i, atk in 10..19, def 1, an even speek in 100..298, and may attack now |
| Domain.TestUnits | src/domain/battle.rs:41-52 | the map/collect yields units 1..num, unit k + 1 carrying id first + k |
| Domain.TestFormation | src/domain/battle.rs:29-38 | no columns for zero units, otherwise determine_columns(num) columns |
| Domain.Test | src/domain/battle.rs:29-63 | the builder returns the round-robin test formation and advances the counter by num |
| Domain.TestFormationAt | src/domain/battle.rs:41-60 | rank r of column c holds test unit r * n + c + 1 with id first + r * n + c |
| Domain.TestFormationIdRange | src/domain/battle.rs:43 | every id in the formation is one of the num ids taken from first |
| Domain.TestFormationIdsDistinct | src/domain/battle.rs:43 | two different places never hold the same id |
| Domain.TestFormationFull | src/domain/battle.rs:54-60 | no column of a non-empty test formation is empty, and the formation holds exactly the num test units |
| Domain.TestFormationReady | src/domain/battle.rs:41-52 | a fresh test formation is all alive, within max hp, and every unit may attack now |
| Model.TestUnit | src/model.rs:58-66 | test unit i carries the given id and has hp = max_hp = i, atk in 10..19, def 1, and an even speek in 100..298 |
| Model.TestUnits | src/model.rs:57-67 | units 1..num, unit k + 1 carrying id first + k |
| Model.TestFormation | src/model.rs:39-51 | no columns for zero units, otherwise as many columns as the 1/2/3/4/5/6 band match gives |
| Model.Test | src/model.rs:39-78 | the builder returns the round-robin formation and advances the counter by num |
| Model.SameFormationAsDomain | src/model.rs:39-78 | model.rs and domain/battle.rs put the same units (without the attack clock) in the same places |
| Engine.Where | src/app/service.rs:159-165 | the enumerate/filter/map/collect never lists more indices than there are columns |
| Engine.WhereSound | src/app/service.rs:159-165 | the collected indices are exactly the columns satisfying the filter, each once, in increasing order |
| Engine.TargetsIffAlive | src/app/service.rs:134-165 | the target list is non-empty exactly when the side is alive |
| Engine.AnyAlive | src/app/service.rs:137 | a column is alive when some unit of it has hp left |
| Engine.SideAlive | src/app/service.rs:134-141 | a side is alive when some column of it is alive |
| Engine.Judge | src/app/service.rs:134-150 | friendly victory iff no enemy column holds a live unit; enemy victory iff the enemy lives and no friendly unit does |
| Engine.Ranks | src/app/service.rs:155 | `take(3)` visits min(3, column length) ranks |
| Engine.Pick | src/app/service.rs:168 | random_range(0..n) yields an index below n |
| Engine.CanAttack | src/app/service.rs:157 | a unit may attack when it has hp left and its next attack time has come (the enemy loop repeats the test at line 178) |
| Engine.Planned | src/app/service.rs:153-193 | the attacks one side has planned at a point of its column and rank loops; its properties are `PlannedSound`, `PlannedOrdered`, `PlannedComplete` and `PlannedNone` |
| Engine.PlannedSound | src/app/service.rs:153-173 | each planned attack is the side's, from a visited unit of the first three ranks that may attack, aimed at the column picked by its draw among the live columns |
| Engine.PlannedOrdered | src/app/service.rs:153-173 | planned attacks come in column-major order |
| Engine.PlannedComplete | src/app/service.rs:153-173 | while the other side has a live column, every visited unit of the first three ranks that may attack has planned an attack |
| Engine.PlannedNone | src/app/service.rs:167-170 | nothing is planned against a side with no live column |
| Engine.SideAttacks | src/app/service.rs:153-173 | a side plans no attack against a side that is not alive |
| Engine.SideAttacksAt | src/app/service.rs:153-173 | each attack of a side comes from a unit of the first three ranks that may attack, and hits a column holding a live unit |
| Engine.SideAttacksOnce | src/app/service.rs:153-173 | a side's attacks come from distinct places, in column-major order |
| Engine.Collect | src/app/service.rs:152-193 | the attack list is as long as the friendly attacks and the enemy attacks together; their order is proved by `CollectSound` |
| Engine.CollectSound | src/app/service.rs:152-193 | every attack comes from an eligible unit, aims at a live column, and no friendly attack follows an enemy one |
| Engine.CollectComplete | src/app/service.rs:153-173 | while the enemy lives, each eligible friendly unit plans an attack |
| Engine.CollectCompleteEnemy | src/app/service.rs:175-193 | while the friendly side lives, each eligible enemy unit plans an attack |
| Engine.CollectOncePerUnit | src/app/service.rs:152-193 | no unit plans two attacks in one tick |
| Engine.CollectSide | src/app/service.rs:153-173 | the nested collection loops of one side produce exactly `SideAttacks` |
| Engine.CollectAttacks | src/app/service.rs:152-193 | both collection loops produce exactly `Collect` |
| Engine.SatSub | src/app/service.rs:206-209 | saturating_sub is never above a, is zero iff a <= b, and is otherwise a - b |
| Engine.Damage | src/app/service.rs:206 | damage is at least one, and is atk - def when atk exceeds def |
| Engine.CanStrike | src/app/service.rs:197-203 | the guard of one attack: attacker and target column exist, the target column is not empty, and attacker and target front have hp |
| Engine.Strike | src/app/service.rs:196-232 | an attack whose guard fails leaves both formations unchanged, and no attack changes the number of columns |
| Engine.StrikeEffect | src/app/service.rs:196-232 | a landing attack changes exactly two units: the target front loses min(hp, damage) and nothing else, and the attacker's clock restarts at now + speek and nothing else; every other place and every column length stay as they were |
| Engine.StrikeEvolves | src/app/service.rs:195-233 | one attack keeps every unit in its place, raises no hp, and only moves a clock to now + speek |
| Engine.Resolve | src/app/service.rs:195-233 | an attack of either side keeps the number of columns of both formations |
| Engine.ResolveAll | src/app/service.rs:195-233 | applying the attacks in order keeps the number of columns of both formations |
| Engine.ResolveAllEvolves | src/app/service.rs:195-233 | after all attacks, every column keeps its length and every place the same unit; hp never rises, only fronts lose hp, and a clock is either untouched or restarted at now + speek |
| Engine.ApplyAttacks | src/app/service.rs:195-233 | the application loop leaves exactly `ResolveAll` of the armies |
| Engine.DropDead | src/app/service.rs:237-239 | the popped column is empty or has a live front |
| Engine.DropDeadOnlyDead | src/app/service.rs:237-239 | only dead units are removed, and only from the front |
| Engine.Cleanup | src/app/service.rs:235-245 | cleanup keeps the number of columns |
| Engine.CleanupSound | src/app/service.rs:235-245 | every cleaned column is empty or led by a live unit; it is a suffix of the old column, and every removed unit was dead |
| Engine.CleanupFormation | src/app/service.rs:236-240 | the pop_front loops produce exactly `Cleanup` |
| Engine.Richest | src/app/service.rs:259-263 | the chosen column exists and is non-empty |
| Engine.RichestSound | src/app/service.rs:259-263 | max_by_key finds a column iff one is non-empty; it is a longest one and the last of the longest |
| Engine.Rebalance | src/app/service.rs:248-271 | the refill keeps the number of columns |
| Engine.Refill | src/app/service.rs:248-271 | the refill statement produces exactly `Rebalance` |
| Engine.RebalanceKeepsUnits | src/app/service.rs:248-271 | the refill neither creates nor loses a unit |
| Engine.MoveKeepsUnits | src/app/service.rs:265-268 | moving the back unit of one column to an empty column keeps the units |
| Engine.RebalanceActs | src/app/service.rs:250-267 | the refill changes the formation iff there are several columns, one empty and one holding more than one unit |
| Engine.RebalanceFires | src/app/service.rs:250-267 | an empty column and a column holding more than one unit make the refill act |
| Engine.RebalanceMove | src/app/service.rs:258-268 | when it acts, the back unit of the last longest column moves to the first empty column; nothing else changes, and no column is emptied |
| Engine.FirstEmpty | src/app/service.rs:251-266 | `empty_indices.first()` is the first empty column |
| Engine.RichestLong | src/app/service.rs:259-264 | a column with more than one unit makes the richest column hold more than one |
| Engine.RebalanceKeepsEvery | src/app/service.rs:248-271 | any property of every unit survives the refill |
| Engine.CleanupKeepsEvery | src/app/service.rs:235-245 | any property of every unit survives the cleanup |
| Engine.CleanupAfterAttacks | src/app/service.rs:195-245 | if every unit was alive before the attacks, every unit left after the cleanup is alive |
| Engine.EvolvesKeepsBounded | src/app/service.rs:208-209 | attacks never raise hp above max_hp |
| Engine.Tick | src/app/service.rs:120-299 | battle_run goes on iff the victory check says fight; when it stops it changes nothing; it keeps the number of columns |
| Engine.TickContinuesIffBothAlive | src/app/service.rs:134-150 | a tick goes on exactly while both sides have a live unit |
| Engine.TickKeepsAllAlive | src/app/service.rs:195-295 | if every unit is alive at the start of a tick, every unit left at its end is alive |
| Engine.TickKeepsHpBounded | src/app/service.rs:195-295 | no unit ever has more hp than max_hp |
| Engine.Army.constructor | src/app/service.rs:11-15 | Army::default has no columns on either side |
| Engine.Army.BattleRun | src/app/service.rs:120-299 | battle_run updates the army in place to exactly `Tick`, and keeps all-alive and hp-within-max |
| Service.Handle | src/app/service.rs:59-83 | no command changes nothing; only Army touches the formations and the id counter; Army leaves both flags; ids never go back; a second StartBattle changes nothing; StartBattle raises and StopBattle lowers the battle flag, StopService lowers the running flag |
| Service.RunTicks | src/app/service.rs:106-117 | repeated battle_run calls keep the number of columns, and do nothing without inputs |
| Service.Battle | src/app/service.rs:106-117 | run_battle does nothing while the battle flag is down; a finished battle lowers the flag; it never touches running or the ids |
| Service.Serve | src/app/service.rs:69-98 | the service loop never takes ids back, and does nothing without input |
| Service.RunTicksDecides | src/app/service.rs:106-117 | a finished run of battle_run calls leaves a decided battle: one side has no live unit |
| Service.RunTicksUnfinished | src/app/service.rs:106-117 | a run that is not finished had both sides alive |
| Service.RunTicksKeepsReady | src/app/service.rs:106-117 | across any number of ticks, units stay alive and within max hp |
| Service.ArmyMessageReady | src/app/service.rs:40-47 | army_message installs two formations whose units are all alive and within max hp |
| Service.ArmyMessageIds | src/app/service.rs:40-47 | the enemy side takes the next ids, the friendly side the ones after them, so the sides share no id |
| Service.ServeLeavesBattleIdle | src/app/service.rs:74-94 | between passes of the loop the battle flag is down |
| Service.StopBattleIgnored | src/app/service.rs:80 | dropping every StopBattle from the input changes nothing the service does |
| Service.ServeStops | src/app/service.rs:81-87 | a StopService command ends the loop by the round that carries it, unless a battle is still running then |
| Service.ServeRunningFlag | src/app/service.rs:81-87 | the loop leaves with Stopped exactly when the running flag went down |
| Service.GameService.constructor | src/app/service.rs:31-38 | GameService::new starts with both flags down and shares the given army |
| Service.GameService.ArmyMessage | src/app/service.rs:40-57 | army_message updates the army and the counter to exactly what `Handle` gives for the Army command |
| Service.GameService.StartBattle | src/app/service.rs:59-66 | start_battle is the StartBattle case of `Handle` |
| Service.GameService.Stop | src/app/service.rs:101-103 | stop lowers the running flag and changes nothing else |
| Service.GameService.RunBattle | src/app/service.rs:106-117 | the run_battle loop returns and leaves exactly what `Battle` gives |
| Service.GameService.Dispatch | src/app/service.rs:77-82 | the match on a received command changes the service exactly as `Handle` says |
| Service.GameService.Start | src/app/service.rs:69-98 | start raises the running flag and its loop ends exactly as `Serve` does |
| HexColor.TrimHashes | src/utils/img.rs:48 | the result is a suffix with no leading '#', and every dropped byte was a '#' |
| HexColor.HexDigit | src/utils/img.rs:51 | a byte is a digit exactly when it is '0'-'9', 'a'-'f' or 'A'-'F', and its value is below 16 |
| HexColor.DigitCaseInsensitive | src/utils/img.rs:51 | an upper-case digit has the value of its lower-case form |
| HexColor.DigitsValue | src/utils/img.rs:51 | a digit string has a value exactly when every byte of it is a hex digit |
| HexColor.ParseU8 | src/utils/img.rs:51 | a parsed value fits in a u8; empty input, a lone '+', a lone '-', a first byte that is neither a digit nor '+', and a non-digit after the first byte are errors |
| HexColor.ParseDigits | src/utils/img.rs:51 | two hex digits of either case parse to 16 * high + low |
| HexColor.ParseSignedDigit | src/utils/img.rs:51 | '+' followed by one hex digit parses to that digit |
| HexColor.ParseUpperCase | src/utils/img.rs:51 | "FF" parses to 255 |
| HexColor.IsCharBoundary | src/utils/img.rs:51 | the test `&str` slicing applies: an end of the string, or a byte that is not a UTF-8 continuation byte |
| HexColor.SliceOk | src/utils/img.rs:51 | `&hex[i..j]` is legal when i <= j <= len and both ends are character boundaries |
| HexColor.ChannelAt | src/utils/img.rs:51-57 | a parsed channel fits in a byte (the full case split is `ChannelAtCases`) |
| HexColor.ChannelAtCases | src/utils/img.rs:51-57 | a channel panics exactly when its slice is not a `&str`; otherwise two digits give 16 * high + low, '+' and a digit give the digit, and anything else is a ParseIntError |
| HexColor.Failure | src/utils/img.rs:51-57 | the `?` on a failed channel: a panic stays a panic, a ParseIntError is returned as the error |
| HexColor.ChannelErrorStops | src/utils/img.rs:51-57 | the first channel that is a ParseIntError, after channels that all parsed, makes the whole call a ParseIntError |
| HexColor.BadRedIsError | src/utils/img.rs:51 | a first byte that is neither a hex digit nor '+' gives a ParseIntError once the red slice is legal |
| HexColor.ErrorBeforePanic | src/utils/img.rs:51-54 | on a three-byte input with a bad red pair, the green slice would panic, yet the call is a ParseIntError because red fails first |
| HexColor.AlphaAt | src/utils/img.rs:60-62 | the alpha channel never panics, and any parsed value fits in a byte |
| HexColor.HexToTuple | src/utils/img.rs:47-65 | every channel of a parsed colour fits in a byte |
| HexColor.LowerDigit | src/utils/img.rs:51 | the encoder's digit parses back to its value |
| HexColor.HexPair | src/utils/img.rs:51 | two ASCII digits, neither a '#' nor a '+' |
| HexColor.ParsePair | src/utils/img.rs:51 | two lower-case hex digits parse back to their byte |
| HexColor.ParsePlusDigit | src/utils/img.rs:51 | from_str_radix accepts one leading '+' before a digit |
| HexColor.PairChannel | src/utils/img.rs:51-57 | two ASCII hex digits on character boundaries give their byte as the channel |
| HexColor.EncodeRoundTrip | src/utils/img.rs:47-65 | parsing "#rrggbbaa" gives the colour back |
| HexColor.EncodeOpaqueRoundTrip | src/utils/img.rs:59-62 | parsing "#rrggbb" gives the colour back with alpha 255 |
| HexColor.HashesIgnored | src/utils/img.rs:48 | any number of leading '#'s is ignored |
| HexColor.TooShortPanics | src/utils/img.rs:51 | fewer than two bytes after the '#'s make `&hex[0..2]` panic |
| HexColor.ShortNeverColor | src/utils/img.rs:51-57 | fewer than six bytes after the '#'s never give a colour |
| HexColor.ShortIsOpaque | src/utils/img.rs:60-62 | with fewer than eight bytes after the '#'s, any colour found is opaque |
| HexColor.TailIgnored | src/utils/img.rs:60-62 | bytes past the eighth are never looked at, as long as the eighth ends a character |
| HexColor.BgColor | src/utils/img.rs:28 | the background colour, when there is one, has every channel within a byte |
| HexColor.BgColorFallback | src/svg_utils.rs:26-28 | a string whose red pair is not hex draws transparent black |
| HexColor.BgColorOfEncoded | src/svg_utils.rs:26-28 | an encoded "#rrggbbaa" colour draws itself |
| HexColor.BgColorPanics | src/svg_utils.rs:26-28 | fewer than two bytes after the '#'s: `bg_svg` panics and there is no background |

## Left out

- Threads, the mpsc channel, `RwLock`, lock poisoning, logging, `println!` and the 50 ms sleep are not modelled. A
  write-lock failure in `army_message` or `battle_run` is not modelled either. The service loop is a function over a
  finite list of rounds: each round holds the command `try_recv` found, if any, and the inputs of the battle
  ticks.
- `Instant::now()` becomes a natural number of milliseconds passed in by the caller. `Instant` overflow is not
  modelled.
- `rand::rng()` becomes a caller-supplied draw stream. The k-th attack of a tick takes draw k, reduced modulo the
  number of target columns. The friendly attacks use draws 0 .. n-1, and the enemy attacks continue from n.
- `Service.GameService.RunBattle`: the source loops until the battle is decided. The model runs at most the given
  list of ticks. A run that uses every tick without a decision returns unfinished with the flag still up, and
  `Serve` then ends with `InBattle`.
- `Domain.Test`: one `now` is used for the whole formation, as the source reads the clock once per call.
- `Domain.Test`, `Model.Test`, `App.Test`: the `n_cols == 0` early returns (src/domain/battle.rs:36-38,
  src/model.rs:52-54, src/app/mod.rs:25-27) are left out because they cannot happen: the column count is at
  least 1 (`App.DetermineColumns`).
- `Domain.IdCounter.Take`: `usize` wrap-around of the counter is not modelled; ids are unbounded naturals.
  `src/model.rs` has a counter of its own. `Model.Test` takes whichever counter it is given.
- Integer widths are not modelled: `usize`, `u64` and `u128` become unbounded naturals. Saturating subtraction
  is written out.
- The `/ 255.0` scaling of `hex_to_tuple`'s channels to `f32` is not modelled: channels stay bytes. The SVG
  string that `bg_svg` formats is not modelled.
- The engine's unit is the `src/domain/battle.rs` unit, which carries the attack clock. `src/app/service.rs`
  imports `app::Unit`, which has neither `speek` nor `next_attack_at`.
- Texture loading, the GUI, animations, assets, the double buffer, snapshots and program start-up are not part
  of this model.
