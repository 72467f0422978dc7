# Calorie stair game — a Dafny model

The calorie stair game is a one-screen React component. It keeps a running calorie balance:
burned calories raise it and eaten calories lower it. The balance is shown as one of five
altitude tiers, from "🔥지옥" (hell) up to "🌌우주" (space). A large single entry shows a short
message, and the balance is kept in the browser's local storage under the key `"calories"`.

This project models the component's logic in three parts:

- `levels.dfy`, module `Levels`: the tier table `LEVELS` and `getLevel`, which returns the
  first tier whose inclusive `[min, max]` range contains the balance. Range ends are integers or
  JavaScript's infinities. The lemmas prove three things. The five ranges partition the integers,
  so `getLevel` never returns `undefined` for an integer balance. The edges are inclusive as
  written. The classification is monotone.
- `game.dfy`, module `Game`: the component as a class with the fields `calories`, `modalType`,
  `inputValue`, `isInitialized`, `animationKey` and `message`. The handlers (open burn, open eat,
  cancel, typing, confirm, Enter key, the message timer) and the two effects (load on mount, save
  on change) are methods, each one atomic step. Local storage is a separate `Storage` object
  holding a string map, because it outlives the component. `Handle` runs one event's handler and
  then, like a render, runs the save effect if the balance or `isInitialized` changed. Its
  contract keeps the stored entry in step with the balance.
- `decimal.dfy`, module `Decimal`: `String(n)` and `Number(s)` on integers written in decimal,
  taken as exact integers. JavaScript's numbers are doubles, so the two agree only for
  magnitudes up to 2^53 (see "## Left out"). Both conversions matter: the stored entry is the
  number's text, and the typed input is read with `Number`. The round-trip lemma shows that a
  stored balance reads back unchanged.
- `options.dfy`, module `Options`: the `Option` type, standing for `undefined`/`null`.

Where the written description of the program and the code disagree, the model follows the code:

- The tier edges. The description puts -3000 in "🕳️지하" and -2999 in "🌍지상". The table puts
  -3000 in "🔥지옥" (its `max` is -3000) and -2999 in "🕳️지하". `Levels.TierEdges` proves what
  the table says.
- The first write. The description says nothing is written before the first explicit change.
  The save effect depends on `isInitialized`, and loading flips it to true, so the effect runs
  again right after mount. It then writes the balance, which is "0" on a first run.
  `Game.FirstRun` states this.
- A corrupted stored value. The description says it falls back to 0. The code sets the balance
  to `Number(saved)`, which is `NaN` for such text. The model requires the stored entry, if
  present, to read as an integer (`StoredIsInteger`).
- The direction of an entry. The description calls entries non-negative. The code accepts any
  number: a negative burn lowers the balance, as `Game.NegativeBurnDescends` shows.

## Model

| member | source | states |
|---|---|---|
| `Levels.FindIndex` | calorie-stair-game/src/App.jsx:35 | `find` gives the first tier that contains the balance: no earlier tier contains it; `None` only when no tier contains it |
| `Levels.Separated` | calorie-stair-game/src/App.jsx:4-10 | in a table where each tier starts one past the previous tier's end, every earlier tier ends below where every later tier starts |
| `Levels.CoveredFrom` | calorie-stair-game/src/App.jsx:4-10 | in such a table ending at +Infinity, a balance at or above tier k's start lies in tier k or a later tier |
| `Levels.Covered` | calorie-stair-game/src/App.jsx:34-36 | over a table spanning -Infinity to +Infinity without gaps, `find` always finds a tier |
| `Levels.Exclusive` | calorie-stair-game/src/App.jsx:4-10 | in a chained table, no balance lies in two different tiers |
| `Levels.FindIndexMonotone` | calorie-stair-game/src/App.jsx:34-36 | in a chained table, a larger balance is found in the same tier or a later one |
| `Levels.LevelsPartition` | calorie-stair-game/src/App.jsx:4-10 | the five `LEVELS` entries are non-empty, adjacent, and span from -Infinity to +Infinity |
| `Levels.LEVELS` | calorie-stair-game/src/App.jsx:4-10 | the five tiers with their names, inclusive bounds (infinities at both ends) and faces, lowest first |
| `Levels.Contains` | calorie-stair-game/src/App.jsx:35 | the `find` test: the balance is at least the tier's `min` and at most its `max` |
| `Levels.GetLevel` | calorie-stair-game/src/App.jsx:34-36 | `getLevel` returns a tier of `LEVELS` that contains the balance, or `None` (`undefined`) only when no tier does |
| `Levels.LevelIndex` | calorie-stair-game/src/App.jsx:34-36 | for every integer balance, `getLevel` returns a tier (not `undefined`): the one at this index, which contains the balance |
| `Levels.ExactlyOneLevel` | calorie-stair-game/src/App.jsx:4-10 | each integer balance lies in exactly one entry of `LEVELS`, namely the entry `getLevel` returns |
| `Levels.GetLevelMonotone` | calorie-stair-game/src/App.jsx:34-36 | if a <= b, the index of `getLevel(a)` in `LEVELS` is at most the index of `getLevel(b)` |
| `Levels.LevelAt` | calorie-stair-game/src/App.jsx:35 | a balance that tier k contains is classified as tier k |
| `Levels.TierEdges` | calorie-stair-game/src/App.jsx:5-9 | -3000 → 🔥지옥; -2999 and -1000 → 🕳️지하; -999 and 2999 → 🌍지상; 3000 and 4999 → ☁️구름; 5000 → 🌌우주 |
| `Decimal.ToNumber` | calorie-stair-game/src/App.jsx:39 | `Number` reads an all-digit text as its exact decimal value (the program agrees up to 2^53), and reads "" as 0 |
| `Decimal.IntToString` | calorie-stair-game/src/App.jsx:30 | the text `setItem` stores for a balance: a minus sign exactly when the balance is negative, then decimal digits |
| `Decimal.NatRoundTrip` | calorie-stair-game/src/App.jsx:30 | reading back the digits written for a natural number gives that number |
| `Decimal.IntRoundTrip` | calorie-stair-game/src/App.jsx:21-30 | `Number(String(n)) == n` for every integer, so the stored balance reads back unchanged |
| `Decimal.IntToStringInjective` | calorie-stair-game/src/App.jsx:30 | distinct balances are stored as distinct texts |
| `Game.Applied` | calorie-stair-game/src/App.jsx:40-50 | the balance after a confirm: plus the value in burn mode, minus it in eat mode, unchanged with no mode |
| `Game.Feedback` | calorie-stair-game/src/App.jsx:42-49 | the message after a confirm: that mode's text for an entry of 1000 or more, otherwise the old message |
| `Game.Storage.constructor` | calorie-stair-game/src/App.jsx:21 | local storage as a string map holding the given entries |
| `Game.FeedbackOnlyOnLargeEntries` | calorie-stair-game/src/App.jsx:42-49 | a confirm changes the message only for an entry of 1000 or more in burn or eat mode; it then sets the burn or eat message for that mode |
| `Game.ConfirmTierDirection` | calorie-stair-game/src/App.jsx:40-50 | a non-negative burn never lowers the tier, and a non-negative eat never raises it |
| `Game.NegativeBurnDescends` | calorie-stair-game/src/App.jsx:39-41 | negative entries are accepted: a burn of -1 at -2999 gives -3000, a lower tier |
| `Game.CalorieStairGame.constructor` | calorie-stair-game/src/App.jsx:13-18 | the first render: balance 0, no dialog, field 0, not initialized, counter 0, no message |
| `Game.CalorieStairGame.CurrentLevel` | calorie-stair-game/src/App.jsx:63-74 | the shown tier always exists and contains the balance |
| `Game.CalorieStairGame.LoadSaved` | calorie-stair-game/src/App.jsx:20-26 | the balance becomes `Number` of the stored entry if the key is present, otherwise stays; `isInitialized` becomes true; nothing else changes |
| `Game.CalorieStairGame.SaveIfInitialized` | calorie-stair-game/src/App.jsx:28-32 | once initialized, the balance's text is written under `"calories"`; before that, storage is untouched |
| `Game.CalorieStairGame.Mount` | calorie-stair-game/src/App.jsx:20-32 | after mount, the balance is the stored one (or stays 0), the component is initialized, and storage holds the balance's text |
| `Game.CalorieStairGame.OpenBurn` | calorie-stair-game/src/App.jsx:104 | only `modalType` changes, to burn |
| `Game.CalorieStairGame.OpenEat` | calorie-stair-game/src/App.jsx:110-111 | only `modalType` changes, to eat |
| `Game.CalorieStairGame.Cancel` | calorie-stair-game/src/App.jsx:151 | only `modalType` changes, to closed; the typed text is not reset |
| `Game.CalorieStairGame.Edit` | calorie-stair-game/src/App.jsx:138 | only `inputValue` changes, to the field's text |
| `Game.CalorieStairGame.Confirm` | calorie-stair-game/src/App.jsx:38-55 | balance +value in burn mode, -value in eat mode, unchanged with no mode; message set only for an entry of 1000 or more, else kept; dialog closed, field "0", counter +1 |
| `Game.CalorieStairGame.HandleKeyDown` | calorie-stair-game/src/App.jsx:57-61 | Enter has exactly the effect of confirm; any other key changes nothing |
| `Game.CalorieStairGame.ClearMessage` | calorie-stair-game/src/App.jsx:54 | the timer blanks the message, whichever message is showing, and changes nothing else |
| `Game.CalorieStairGame.Handle` | calorie-stair-game/src/App.jsx:28-32 | each event changes the fields exactly as its handler does; after it, storage stays in step with the balance once initialized; nothing is written before initialization; every change of the balance writes its text |
| `Game.BurnFifteenHundred` | calorie-stair-game/src/App.jsx:38-55 | a first session that burns 1500 ends at balance 1500 with the burn message, the dialog closed, and "1500" stored |
| `Game.Reload` | calorie-stair-game/src/App.jsx:20-32 | a new session over the same storage restores the current balance and leaves storage as it was |
| `Game.FirstRun` | calorie-stair-game/src/App.jsx:20-32 | a first session over storage without the key starts at 0, and mounting stores "0" |

## Left out

- Rendering, styling and animation (lines 65-162). `animationKey` is modelled only as a counter.
  `CurrentLevel` stands for the lookup that the render reads the name and face from.
- Timing of the message clear (line 54). Each confirm starts a two-second timer that is never
  cancelled. The model has a `MessageTimeout` event that may arrive at any point. So a timer
  from an earlier confirm may blank a newer message early, as in the program. When timers fire
  is not modelled.
- React scheduling: batching of state updates, effects seeing the render's captured values, and
  development-mode double effects. Each handler and each effect is one atomic step. `Mount` runs
  the load effect and then the save effect. `Handle` runs the save effect after a handler
  whenever its dependencies changed.
- Non-integer numbers. `Number(...)` can also give fractions, exponent forms, `NaN` and
  `Infinity` (lines 23 and 39). All of these are floating point. `ToNumber` covers the empty
  text and an optional sign followed by decimal digits, and is `None` otherwise. Confirm and
  Enter require a field that reads as an integer. Mounting requires a stored entry, if present,
  that reads as an integer. For non-integers the table has gaps (-2999.5 matches no tier), so
  `getLevel` would return `undefined` and the render would fail.
- `Decimal.ToNumber`: leading or trailing whitespace, which `Number` ignores, is not modelled.
  Such text reads as `None`.
- `Decimal.ToNumber`: the result is exact, so it matches the program only for magnitudes up to
  2^53. Beyond that, `Number` rounds to the nearest double: "9007199254740993" reads as
  9007199254740992 in the program.
- `Decimal.IntToString`: gives all digits for any integer. From 10^21 on, the program's
  `String` writes exponent form ("1e+21"), and beyond 2^53 the balance itself is already rounded.
- `Game.CalorieStairGame.Confirm`: the balance is an unbounded integer. In the program it is a
  double, so beyond 2^53 an addition can round away: at 2^53 a burn of 1 leaves the balance
  unchanged, and the save effect then does not run. The model moves to 2^53 + 1 and writes it.
  `Handle`, `Applied` and the storage lemmas share this limit.
- Real local storage I/O. Storage is an in-memory map that outlives the component. Its writes
  always succeed.
