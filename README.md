# Jungle temple adventure: layout, game engine and prototype in Dafny

This project models the core of a browser text adventure set in a jungle temple.
The player types commands such as `go north`, `take torch`, `use key with door`
or `solve <answer>`, and the game answers with text. The model has three parts.

- **The mini-map layout** (`MapLayout`, after `js/map-layout.js`). Class
  `ForceDirectedLayout` walks the room graph depth-first twice from the fixed
  start room `jungleClearing`. Each walk follows only the `north`, `south`,
  `east` and `west` exits and is guarded by a `visited` set, so the first visit
  to a room wins. The first walk records depths. The second walk overwrites them
  with signed pairs of north and east offsets. Each pair `d` is then mapped to the
  percentage coordinate `50 + d * 40 / (max + 1)`. Despite the class's name, no
  force simulation happens anywhere in that file.
- **The rule-driven engine** (`AdventureGame`, after class `Game` of `js/game.js`).
  The rooms, messages, rules and puzzles are data loaded once. The game state is
  the current room, the inventory, the game-over flag, named boolean flags, the
  solved puzzles and the items lying in each room. It changes through the
  handlers for moving, taking, using, combining, solving, and the win and death
  checks. Each handler is specified by a pure function over a `State` value
  (`Move`, `Take`, `Use`, `Combine`, `Solve`, `WinOrDeath`, `Respond`). The
  methods of class `Game` update their fields step by step and are proved to
  agree with those functions. Lemmas state what the functions promise.
- **The first prototype** (`Prototype`, after `game.js`). It is the same kind of
  game with a constant table of ten rooms, an item table and three verbs
  (`go`, `take`, `use`). After every command it runs six fixed win and death
  checks. Class `Game` holds the global `gameState` and the rooms' `items`
  arrays, which are the only things that change. Its `take` matches item names
  ignoring case and white space. The source's exact match is modelled beside it
  as `TakeExact`, with runs of commands that use it (`ExactCommand`, `ExactRun`),
  and is shown wrong under "Findings".

`Text` models the JavaScript string operations the game uses: `trim`,
`toLowerCase`/`toUpperCase` on ASCII, `\s`, `split`/`join`, `includes`,
`indexOf`, and the search for the first exit key contained in a direction.
`Wrappers` holds `Option`.

Texts the source displays become return values. A handler returns its message,
and a command returns the sequence of texts it displays, in order.
`Math.random()` becomes a boolean parameter: one draw per death condition in the
engine, one for the tunnel in the prototype. The typed command is a parameter
instead of a read from the page.

## Model

| member | source | states |
|---|---|---|
| Text.LowerChar | js/game.js:384 | the lower-case image of a character is never upper-case; capitals map to lower-case letters, every other character is kept |
| Text.UpperChar | js/game.js:282 | the upper-case image is never lower-case, lower-case letters map to capitals that lower back to them, every other character is kept |
| Text.ToLower | js/game.js:188 | `toLowerCase` keeps the length and lower-cases each character in place |
| Text.ToLowerConcat | js/game.js:384 | lower-casing distributes over concatenation |
| Text.ToLowerKeeps | js/game.js:188 | lower-casing leaves a string without capitals unchanged |
| Text.ToLowerTwice | js/game.js:384 | lower-casing twice is lower-casing once |
| Text.TrimStartDrops | js/game.js:188 | dropping leading white space keeps a suffix of the input, removes only white space, and leaves no white space in front |
| Text.TrimEndDrops | js/game.js:188 | dropping trailing white space keeps a prefix of the input, removes only white space, and leaves no white space at the end |
| Text.TrimTrimmed | js/game.js:283 | the result of `trim` is no longer than its input and starts and ends with a non-white-space character unless it is empty |
| Text.TrimParts | js/game.js:188 | the input is the trimmed text with only white space before and after it |
| Text.Trim | js/game.js:188 | `trim` drops the leading and then the trailing white space; what that keeps and drops is stated by `TrimStartDrops`, `TrimEndDrops`, `TrimParts` and `TrimTrimmed` |
| Text.IndexOf | js/game.js:325 | `indexOf` returns an index where the substring occurs and before which it does not occur; it returns none only when the substring occurs nowhere |
| Text.RemoveWhitespace | js/game.js:384 | `replace(/\s+/g, '')` leaves no white space, only characters of the input, the input itself when it had no white space, and nothing when it was all white space |
| Text.RemoveWhitespaceConcat | js/game.js:384 | removing white space distributes over concatenation |
| Text.FirstKeyIncluded | js/game.js:239-240 | the exit chosen is the first, in order, whose key the direction contains; none is chosen only when the direction contains no key |
| Text.FindKeyIncluded | game.js:128-129 | the loop over the exits finds exactly the exit `FirstKeyIncluded` chooses |
| Text.Split | js/game.js:190 | `split` yields at least one word and no word holds the separator |
| Text.JoinShows | js/game.js:441 | every string joined shows up in the joined string |
| Text.JoinSplit | js/game.js:190-192 | joining the words of a split with the separator gives back the input |
| Text.SplitFirst | js/game.js:190-192 | without a separator the split is the input alone; with one, the input is the first word, the separator and the rest joined |
| Text.Verb | js/game.js:191 | the verb holds no space |
| Text.VerbArgument | js/game.js:190-192 | a command without a space is all verb with an empty object; otherwise it is the verb, one space and the object |
| Text.CutAtFirstSpace | game.js:102-104 | two ways of writing a string as a word without spaces, one space and a rest agree on the word and the rest |
| Text.CommandParts | game.js:99-104 | a lower-case verb, one space and an object not ending in white space read back, once trimmed and lower-cased, as that verb and the lower-cased object |
| MapLayout.Children | js/map-layout.js:64-79 | a room's children are exactly the truthy targets of its four compass exits; a missing room or one without exits has none |
| MapLayout.OtherExitsIgnored | js/map-layout.js:25-30 | adding an exit under any name other than the four compass names changes no room's children |
| MapLayout.Begin | js/map-layout.js:58-62 | marking and recording an unvisited room starts a walk from it that has recorded only that room |
| MapLayout.Extend | js/map-layout.js:68-79 | a walk from a child, at the parent's depth stepped in that direction, extends the parent's walk and leaves the child visited |
| MapLayout.Finish | js/map-layout.js:64-65 | a walk whose four exits all lead to visited rooms is complete; a room with no exits is complete at once |
| MapLayout.Coord | js/map-layout.js:51-52 | a coordinate lies strictly between 10 and 90 when the offset is within the maximum, and is 50 for offset 0 |
| MapLayout.CoordMonotone | js/map-layout.js:51-52 | a larger offset gets a larger coordinate |
| MapLayout.LaidOutInBounds | js/map-layout.js:43-54 | after the layout every position lies strictly inside the 10..90 square |
| MapLayout.LaidOutStartCentred | js/map-layout.js:40-54 | the start room is positioned at (50, 50) |
| MapLayout.LaidOutOrdered | js/map-layout.js:49-54 | a room with a larger east offset gets a larger x, and one with a larger north offset a larger y |
| MapLayout.WalkFromStart | js/map-layout.js:39-40 | the second walk from the start, begun with nothing visited, visits exactly the reachable rooms, gives the start offsets (0, 0), leaves offsets for every room (no scalar depth survives), and gives every other room offsets that follow a parent's |
| MapLayout.WalkRecordsReachable | js/map-layout.js:15-31 | a walk from the start only records rooms reachable from the start and keeps every earlier entry |
| MapLayout.ForceDirectedLayout.constructor | js/map-layout.js:2-7 | a new layout has empty `positions`, `depths` and `visited` |
| MapLayout.ForceDirectedLayout.InitializePositions | js/map-layout.js:9-13 | after both walks and the placement, positions are laid out: their keys are exactly the rooms reachable from the start over compass exits, each computed from its offsets |
| MapLayout.ForceDirectedLayout.CalculateDepths | js/map-layout.js:15-31 | the first walk terminates on cyclic graphs, changes nothing if the room was visited, and otherwise records every newly reachable room once, each one step deeper than its parent |
| MapLayout.ForceDirectedLayout.DepthsAlong | js/map-layout.js:26-30 | one `forEach` step follows the exit in that direction if it is truthy and leaves its target visited |
| MapLayout.ForceDirectedLayout.PositionRooms | js/map-layout.js:33-55 | clearing `visited`, walking again and placing the rooms leaves the laid-out state |
| MapLayout.ForceDirectedLayout.MaxDepths | js/map-layout.js:43-46 | the loop computes the largest absolute north and east offsets, 0 when there are none |
| MapLayout.ForceDirectedLayout.PlaceRooms | js/map-layout.js:49-54 | every recorded room gets the position of its offsets; other positions are kept |
| MapLayout.ForceDirectedLayout.CalculateDirectionalDepths | js/map-layout.js:57-80 | the second walk terminates, and records every newly reachable room once with the parent's offsets stepped north −1, south +1, east +1 or west −1 |
| MapLayout.ForceDirectedLayout.OffsetsAlong | js/map-layout.js:68-79 | one `if` of the second walk follows its exit with the stepped offsets and leaves its target visited |
| MapLayout.ForceDirectedLayout.GetLayout | js/map-layout.js:82-89 | the layout returned holds exactly the keys and coordinates of `positions` |
| Prototype.RoomAt | game.js:9-70 | the description and choices of each of the ten rooms, as the table gives them; its exits are `Exits` |
| Prototype.Exits | game.js:9-70 | the exits of each room in table order; `NoExitLoops` states that none leads back into its own room |
| Prototype.NoExitLoops | game.js:9-70 | no exit of the table leads back into the room it leaves |
| Prototype.InitialItems | game.js:9-70 | the items each room holds when the page loads; `Items` states that each has an entry in the item table |
| Prototype.Items | game.js:73-81 | every item lying in a room of the room table has an entry in the item table |
| Prototype.FirstIndex | game.js:140 | `indexOf` on an array returns the first index holding the item, and none only when it is absent |
| Prototype.ObjectHasNoCapitals | game.js:99-104 | the object cut from the trimmed, lower-cased command holds no capital letter |
| Prototype.ExactTakeMissesCapitals | game.js:99-140 | as written, the exact `indexOf` of that object never finds an item whose name holds a capital |
| Prototype.IdolAndTreasureUntakeable | game.js:55-62 | as written, no command finds `goldenIdol` in the chamber of the idol or `cursedTreasure` in the treasure room |
| Prototype.TakeCommand | game.js:99-104 | `take`, one space and a name not ending in white space read as the verb `take` and the lower-cased name |
| Prototype.TakeCommandFinds | game.js:138-147 | with the lookup ignoring case and white space, `take` and a name matching an item of the room find that item or an earlier one of the same name, so "take golden idol" finds `goldenIdol` |
| Prototype.Go | game.js:126-135 | the room `go` ends in and its response; `GoMoves` states what they are |
| Prototype.GoMoves | game.js:126-135 | `go` moves exactly when the direction contains the name of one of the room's exits, and then describes the room reached; otherwise it stays and answers that it can't go |
| Prototype.TakeFrom | game.js:138-147 | what `take` leaves in the room and the inventory and its response; `TakeConserves` states that no item is lost or created, and `TakeCommandFinds` which item moves |
| Prototype.TakeFromConserves | game.js:138-147 | the take as `TakeFrom` gives it loses and creates no item: the rooms' items and the inventory together keep their multiset |
| Prototype.TakeExact | game.js:138-147 | `take` as written: exact `indexOf`, `splice` of the item found, `push` of the name typed; `TakeExactOutcome` states what it does |
| Prototype.TakeExactOutcome | game.js:138-147 | as written, a name present in the room has its first occurrence removed and is appended to the inventory, with the source's response; a name absent leaves both unchanged and answers no-such-item; in both cases no item is lost or created |
| Prototype.Start | game.js:2-6 | the state a game starts in: the jungle clearing, an empty inventory, not over, each room's items from the table |
| Prototype.ExactCommand | game.js:96-123 | one command as written, with the exact `take`, followed by the checks; `ExactCommandLowercase` states what it adds to the inventory |
| Prototype.ExactRun | game.js:96-123 | a run of commands as written, one after the other |
| Prototype.ExactCommandLowercase | game.js:96-147 | as written, a command adds to the inventory only the lower-cased object typed, so a carried name never holds a capital |
| Prototype.ExactRunLowercase | game.js:96-147 | as written, every run of commands keeps every carried name free of capitals |
| Prototype.LowercaseLacksCursed | game.js:55-62 | an inventory of names without capitals carries neither `goldenIdol` nor `cursedTreasure` |
| Prototype.IdolCurseEscapeNeverFire | game.js:182-197 | as written, no run of commands from the start puts `goldenIdol` or `cursedTreasure` in the inventory, so the idol's curse, the treasure's curse and the escape with the idol never fire |
| Prototype.UseReply | game.js:150-161 | `use` answers the torch message exactly when the torch is held in the underground tunnel; otherwise "don't have" for an item not held and "can't use" for one held |
| Prototype.ItemsInUpdate | game.js:142-143 | replacing one room's items changes the total of all rooms' items by exactly that difference |
| Prototype.TakeConserves | game.js:142-143 | moving an item from a room into the inventory keeps the multiset of all items |
| Prototype.Messages | game.js:164-204 | one message is displayed per check that fires, and the i-th message is the one of the i-th check |
| Prototype.VerdictsDeaths | game.js:167-191 | each death check fires exactly when its condition holds |
| Prototype.VerdictsWins | game.js:194-203 | each win check fires exactly when its condition holds |
| Prototype.EndsGame | game.js:164-203 | some check fires exactly when one of the six conditions holds, so a cursed item held without the amulet, or either winning combination, always ends the game |
| Prototype.TrapNeverSprung | game.js:168 | with the command field already cleared, the trap-room check never fires |
| Prototype.Game.constructor | game.js:2-6 | the game starts in the jungle clearing with an empty inventory, not over, with each room's items from the table |
| Prototype.Game.ProcessCommand | game.js:96-123 | a finished game ignores the command and changes nothing; otherwise the object cut from the trimmed, lower-cased command goes to `go` (room and response as `Go` gives them), `take` (items, inventory and response as `TakeFrom` gives them) or `use` (response as `UseReply` gives it), any other verb is not understood, the checks' messages follow the response, the game-over flag is set exactly when a check fired and never cleared, the multiset of all items is kept, only `go` moves and only `take` changes items or inventory |
| Prototype.Game.HandleMovement | game.js:126-135 | the room reached and the response are those `Go` gives: the target of the first exit key, in table order, contained in the direction; with no such key nothing changes; items, inventory and the game-over flag are kept |
| Prototype.Game.HandleTake | game.js:138-147 | the room's items, the inventory and the response are those `TakeFrom` gives: the first item of the room matching the name, ignoring case and white space, moves to the end of the inventory under its own name; otherwise nothing changes; all items are conserved |
| Prototype.Game.HandleUse | game.js:150-161 | use changes nothing and answers what `UseReply` gives |
| Prototype.Game.CheckWinOrDeath | game.js:164-204 | the checks that fire are exactly those whose conditions hold, in order; only the game-over flag changes, and it is set exactly when one fired |
| AdventureGame.SameLayoutKeepsExits | js/game.js:311 | changing only rooms' items keeps every exit leading into the map |
| AdventureGame.NewItems | js/game.js:311 | replacing one room's items keeps the layout and every other room |
| AdventureGame.Normalize | js/game.js:383-385 | a normalized name holds no white space and no capital |
| AdventureGame.NormalizeIdempotent | js/game.js:383-385 | normalizing twice is normalizing once |
| AdventureGame.NormalizeConcat | js/game.js:383-385 | normalizing distributes over concatenation |
| AdventureGame.NormalizeWhitespace | js/game.js:383-385 | a name of white space alone normalizes to the empty name |
| AdventureGame.Format | js/game.js:280-284 | `formatItemName` spaces out capitals, capitalizes the first letter and trims; `FormatTrimmed` and `FormatNormalizes` state what that gives |
| AdventureGame.FormatTrimmed | js/game.js:280-284 | a formatted name starts and ends with a non-white-space character unless it is empty |
| AdventureGame.NormalizeSpaceCapitals | js/game.js:281 | spacing out capitals does not change the normalized name |
| AdventureGame.NormalizeCapitalizeFirst | js/game.js:282 | capitalizing the first letter does not change the normalized name |
| AdventureGame.NormalizeTrim | js/game.js:283 | trimming does not change the normalized name |
| AdventureGame.FormatNormalizes | js/game.js:280-284 | a formatted name normalizes to the same name as the original, so what the player reads can be typed back |
| AdventureGame.FindNormalized | js/game.js:294-296 | the match found is the first item whose normalized name equals the key; none only when no item matches |
| AdventureGame.AllHeld | js/game.js:256 | `every(item => inventory.includes(item))` holds exactly when each required item is held |
| AdventureGame.CheckCondition | js/game.js:514-532 | an absent condition holds; an inventory list needs every item held; a single inventory item needs that item held; inventory takes precedence over state; a state condition needs the flag to equal `value`; an empty condition holds |
| AdventureGame.InventoryBeforeState | js/game.js:517-529 | a condition that tests the inventory does not depend on the flags |
| AdventureGame.ConditionMonotone | js/game.js:514-532 | a condition that holds keeps holding when the inventory gains items |
| AdventureGame.Move | js/game.js:233-277 | `handleMovement`; `MoveOutcome`, `MoveAllowed` and `MoveNowhere` state what it does |
| AdventureGame.MoveOutcome | js/game.js:233-277 | a move changes at most the room and the game-over flag; the room changes only through the first contained exit when the entry condition and required items allow it; the game ends only when items are missing and a death message exists |
| AdventureGame.MoveAllowed | js/game.js:237-276 | the first exit whose name the direction contains is taken, with the arrival text, whenever its room admits the player and every item it needs is held |
| AdventureGame.MoveNowhere | js/game.js:237-253 | a direction containing no exit name changes nothing and answers that the player can't go that way |
| AdventureGame.Take | js/game.js:286-316 | `handleTake`; `TakeConserves`, `TakeFirstMatch`, `TakeSucceeds`, `TakeNothing` and `TakeBlocked` state what it does |
| AdventureGame.TakeConserves | js/game.js:286-316 | a take changes only the current room's items, the inventory and the game-over flag, and the multiset of room items plus inventory is kept |
| AdventureGame.TakeFirstMatch | js/game.js:293-313 | a successful take removes the first item whose normalized name matches and appends that actual name to the inventory |
| AdventureGame.TakeSucceeds | js/game.js:293-313 | the first item whose normalized name matches the typed one is taken, under its own name and with its formatted name in the response, whenever no take condition on it fails |
| AdventureGame.TakeNothing | js/game.js:293-299 | a name matching no item of the room changes nothing and answers that there is no such item |
| AdventureGame.TakeBlocked | js/game.js:302-308 | a take blocked by its condition changes only the game-over flag, to the condition's flag, and returns its failure message |
| AdventureGame.Without | js/game.js:406-409 | filtering removes every copy of both items and keeps the count of every other item |
| AdventureGame.WithoutSymmetric | js/game.js:406-409 | filtering out `a` and `b` is filtering out `b` and `a` |
| AdventureGame.Combine | js/game.js:387-417 | `handleCombination`; `CombineSymmetric` and `CombineOutcome` state what it does |
| AdventureGame.CombineSymmetric | js/game.js:397-399 | naming the two items in either order gives the same combination, provided that, when both `a_b` and `b_a` are listed, they hold the same recipe (otherwise `a_b` wins for one order and `b_a` for the other) |
| AdventureGame.CombineOutcome | js/game.js:387-417 | combining changes only the inventory; without a matching recipe nothing changes; with one the result is appended after the ingredients, which are removed entirely when the recipe says so and kept otherwise |
| AdventureGame.Use | js/game.js:318-380 | `handleUse`; `UseHeldOutcome`, `UseWithOutcome`, `UseTogglesOne`, `ToggleFlips` and `ToggleTwice` state what it does |
| AdventureGame.ToggleFlips | js/game.js:372-376 | using a state-changing item flips its flag, an absent flag counting as false, and changes nothing else |
| AdventureGame.UseHeldOutcome | js/game.js:366-379 | a held item with a room message changes nothing; otherwise a state-changing item flips its flag; anything else changes nothing |
| AdventureGame.UseWithOutcome | js/game.js:323-341 | `use a with b` changes at most the inventory (as combining does) and never toggles a flag |
| AdventureGame.UseTogglesOne | js/game.js:318-380 | use keeps the rooms, the current room and the solved puzzles; the flags change exactly when the item toggles, and then in one key only |
| AdventureGame.ToggleTwice | js/game.js:372-376 | using a state-changing item twice restores every flag |
| AdventureGame.FirstOpen | js/game.js:465-468 | the puzzle selected is the first, in key order, not yet solved and listed by the room; none only when no puzzle qualifies |
| AdventureGame.Solve | js/game.js:456-486 | `handleAnagramPuzzle`; `SolveOutcome`, `SolveSucceeds`, `SolveRefuses`, `SolveEmptyKey` and `SolveIgnoresCase` state what it does |
| AdventureGame.SolveIgnoresCase | js/game.js:475 | answers that differ only in case have the same effect |
| AdventureGame.SolveOutcome | js/game.js:456-486 | an answer changes nothing unless it matches, ignoring case, the first open puzzle, whose key is not empty; then the key is appended to the solved puzzles, and the reward, if any, to the inventory |
| AdventureGame.SolveSucceeds | js/game.js:475-483 | conversely, the solution of the first open puzzle with a non-empty key, in any case, always records that key as solved, adds the reward if there is one, and answers accordingly |
| AdventureGame.SolveRefuses | js/game.js:475-485 | any other answer to that puzzle changes nothing and returns its hint, or the stock reply when it has none |
| AdventureGame.SolveEmptyKey | js/game.js:465-472 | a first open puzzle whose key is the empty string counts as no puzzle: nothing changes and the answer is that there is nothing to solve here |
| AdventureGame.InventoryTextLists | js/game.js:437-442 | an empty inventory gives the configured empty message; otherwise the text starts with the configured prefix and every item held shows up after it |
| AdventureGame.FirstWin | js/game.js:490-497 | the win chosen is the first, in order, that holds; none only when none holds |
| AdventureGame.FirstDeath | js/game.js:501-511 | the death chosen is the first, in order, that fires with its draw; none only when none fires |
| AdventureGame.WinOrDeath | js/game.js:488-512 | `checkWinOrDeath`; `WinOrDeathOutcome` states what it does |
| AdventureGame.WinOrDeathOutcome | js/game.js:488-512 | the checks change only the game-over flag and show at most one message; a win that holds takes precedence; failing that, a death fires exactly when one exists; otherwise nothing happens |
| AdventureGame.Dispatch | js/game.js:200-224 | the `switch` on the verb; `DispatchKeepsLayout` states what every branch keeps |
| AdventureGame.Respond | js/game.js:182-231 | `processCommand`; `RespondOutcome`, `Play` and `GameOverIsFinal` state what it does |
| AdventureGame.DispatchKeepsLayout | js/game.js:200-224 | every handler keeps the exits, the validity of the state and the solved puzzles |
| AdventureGame.RespondOutcome | js/game.js:182-231 | a command keeps the state valid, never forgets a solved puzzle and shows at least one text; once the game is over it only shows the game-over message and changes nothing |
| AdventureGame.Play | js/game.js:182-231 | any run of commands leaves a valid state |
| AdventureGame.GameOverIsFinal | js/game.js:183-186 | once the game is over, no run of commands changes anything |
| AdventureGame.PlayKeepsProgress | js/game.js:182-231 | a run of commands keeps every room's exits and never forgets a solved puzzle |
| AdventureGame.Game.constructor | js/game.js:2-28 | a new game starts in the configured room with an empty inventory, no flags, nothing solved and not over |
| AdventureGame.Game.ProcessCommand | js/game.js:182-231 | the room map and game state after the command, and the texts displayed, are those `Respond` gives |
| AdventureGame.Game.HandleMovement | js/game.js:233-277 | the new state and message are those `Move` gives |
| AdventureGame.Game.HandleTake | js/game.js:286-316 | the new state and message are those `Take` gives |
| AdventureGame.Game.HandleUse | js/game.js:318-380 | the new state and message are those `Use` gives |
| AdventureGame.Game.HandleCombination | js/game.js:387-417 | the new state and message are those `Combine` gives |
| AdventureGame.Game.HandleAnagramPuzzle | js/game.js:456-486 | the new state and message are those `Solve` gives |
| AdventureGame.Game.CheckWinOrDeath | js/game.js:488-512 | the new state and the texts displayed are those `WinOrDeath` gives |

## Left out

- Page and browser work is not modelled: the DOM, image display, narration and music audio, `fetch`/`loadConfigurations`/`loadMusicFiles`/`setupAudio`/`initializeMusic`, `displayText`, `displayLocationImage`, `displayInitialRoom`, `displayRoom` and `updateInventory`. Displayed texts are returned instead. `js/main.js` and `server.py` are not part of this model.
- The asynchronous start of the engine is not modelled. The constructor takes the loaded rooms, configuration, rules and puzzles, and starts in `config.startingRoom` at once.
- `gameState.playedSongs` and `gameState.sequenceProgress` belong to the music code and are left out. So is the constructor's `items` parameter, which the engine never reads.
- `handleLook` and `handleHelp` are modelled as the text functions `Look` and `HelpText`, with no contract of their own: all they do is build a string. `InventoryText` has one, `InventoryTextLists`.
- `Math.random()` is a boolean parameter, not a probability. `MapLayout` uses exact `real` arithmetic, not floating point.
- Case mapping and `\s` cover ASCII and the JavaScript white-space characters only. There is no Unicode case mapping.
- The engine's JSON objects become maps. Their key order does not matter except in two places, where the model keeps an ordered sequence:
  - Exits, because `for (let dir in exits)` takes the first matching key.
  - Anagram puzzles, because `Object.keys(...).find` does the same.

  Both sequences hold the keys in JavaScript's enumeration order. Integer-like keys such as "1" and "10" come first, in ascending order, and the other keys follow in insertion order. Everywhere else an empty string, a missing own key and a `null` value all mean the same "absent" value, as JavaScript truthiness makes them.
- AdventureGame.Use: names that every JavaScript object inherits are not modelled as keys.
  - js/game.js:348-350 looks `roomActions.use[normalizedInput]` up on a plain object. In a room with a special-use table, `use constructor` or `use __proto__` therefore finds `Object` or `Object.prototype`. Both are truthy, so the source sets `gameOver` to false and displays `undefined`.
  - The model's `specialUses` map holds only the table's own keys. It searches the inventory instead and answers `dontHaveItemMessage`.
  - A rules file that lacks one of the tables `roomConditions`, `itemConditions`, `specialActions`, `winConditions` or `deathConditions` is not modelled either. The source reads these tables without `?.` at js/game.js:245, 302, 348, 490 and 501 and throws a `TypeError`; the model sees an empty map or list.
- AdventureGame.Game.HandleUse: it is proved equal to `Use`, so it has the same gap for inherited names and missing rules tables as the `AdventureGame.Use` line above.
- The handlers require a well-formed state: the current room exists and every exit leads to a room of the map. This excludes worlds the source does run on, up to the moment a dangling exit is taken (`newRoom.narrationAudio` at js/game.js:268-269 reads `undefined`) or the missing current room is read. In such a world `look`, `inventory`, `help` and a blocked move still answer normally. The model does not cover these worlds. The prototype's room table meets the requirement by construction: exits name room ids.
- MapLayout.ForceDirectedLayout.PlaceRooms: `this.depths.forEach` visits the rooms in insertion order, and the model visits them in an arbitrary order. Every order gives the same positions, so this is not observable. `MaxDepths` and `GetLayout` make the same choice.
- Prototype.Game.CheckWinOrDeath: the source displays each check's message and sets `gameOver` as it goes. The model collects the checks that fire and sets the flag once at the end. No check reads the flag, so the state and the texts displayed are the same.
- Prototype.Game.HandleTake: the class uses the corrected lookup, ignoring case and white space. It therefore also takes items that the exact lookup refuses, such as `take  torch` with two spaces, which the source as written answers with "There's no such item here.". The as-written take is `TakeExact`, run by `ExactCommand` and `ExactRun`. The class does not run it.
- Prototype trap-room check: it reads the command field after `processCommand` has cleared it, so it never fires. `TrapNeverSprung` proves this. The check itself is still modelled with the text it reads as a parameter.

## Findings

| source | as written | input that shows it | evidently intended | confidence | as-written member | corrected member |
|---|---|---|---|---|---|---|
| game.js:99-140 | `processCommand` lower-cases the whole command (line 99) and `handleTake` then looks the object up with an exact `indexOf` (line 140), so no item whose name holds a capital can ever be taken | `take goldenIdol`, or `take golden idol` as the chamber's choices put it, typed in the chamber of the idol, answers "There's no such item here."; the same holds for `cursedTreasure`, so the idol's curse, the treasure's curse and the escape with the idol can never happen, in any run of commands | the item is found whatever the case and spacing of its name, as the later engine does with `normalizeItemName` (js/game.js:383-385), and moves to the inventory under its own name, which the checks of lines 182-203 test; ignoring spacing also accepts names such as ` torch` that the exact lookup refuses | not executed | Prototype.TakeExact, Prototype.TakeExactOutcome, Prototype.ExactTakeMissesCapitals, Prototype.IdolAndTreasureUntakeable, Prototype.IdolCurseEscapeNeverFire | Prototype.TakeFrom, Prototype.TakeCommandFinds |
