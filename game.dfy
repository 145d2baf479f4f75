/**
 * The rule-driven adventure (class Game of js/game.js). The rooms, the
 * messages, the rules and the puzzles are data loaded once; the game state
 * (current room, inventory, game-over flag, named boolean flags, solved
 * puzzles) and the items lying in each room change as commands are processed.
 *
 * The handlers are specified by pure functions over a `State` value
 * (`Move`, `Take`, `Use`, `Combine`, `Solve`, `WinOrDeath`, `Respond`); the
 * methods of class `Game` update the fields step by step and are proved to
 * agree with them, and the lemmas state what the functions promise.
 */
module AdventureGame {
  import opened Wrappers
  import opened Text

  /** A condition's `inventory` field: absent (or the empty string), one item, or a list of items. */
  datatype Held = NoInventory | HeldItem(item: string) | HeldAll(items: seq<string>)

  /**
   * A condition object of the rules. An empty `state` stands for an absent one;
   * `value` is absent when the rules give none.
   */
  datatype Condition = Condition(inventory: Held, state: string, value: Option<bool>,
                                 message: string, failureMessage: string, gameOver: bool)

  /**
   * A room. `exits` keeps the order of the exits object; an absent `requiredItems`,
   * `deathMessages` or `itemUse` object is an empty map, and an empty message string
   * counts as absent.
   */
  datatype Room = Room(description: string, exits: seq<(string, string)>, items: seq<string>,
                       choices: seq<string>, requiredItems: map<string, seq<string>>,
                       deathMessages: map<string, string>, itemUse: map<string, string>,
                       puzzles: Option<seq<string>>)

  /** A special use of `specialActions`. */
  datatype Action = Action(message: string, gameOver: bool)

  /** An entry of `stateChangingItems`: the flag it toggles and the messages for its new value. */
  datatype StateItem = StateItem(toggleState: string, whenTrue: string, whenFalse: string)

  datatype WinCondition = WinCondition(room: string, needs: Option<Condition>, message: string)

  /** A death condition; a `chance` of 0 stands for an absent one. */
  datatype DeathCondition = DeathCondition(room: string, when: Option<Condition>, chance: real, message: string)

  /**
   * The rules. `enterConditions` maps a room to the `requires` of its `enter` rule
   * and `takeConditions` an item to the `requires` of its `take` rule, for the rooms
   * and items that have such a rule; `specialUses` maps a room to its `use` actions.
   */
  datatype Rules = Rules(enterConditions: map<string, Option<Condition>>,
                         takeConditions: map<string, Option<Condition>>,
                         specialUses: map<string, map<string, Action>>,
                         stateChangingItems: map<string, StateItem>,
                         winConditions: seq<WinCondition>,
                         deathConditions: seq<DeathCondition>)

  datatype Combination = Combination(result: string, message: string, removeIngredients: bool)

  /** An anagram puzzle; an empty reward or hint counts as absent. */
  datatype Anagram = Anagram(solution: string, reward: string, hint: string)

  /** The puzzles; anagrams are listed in the order of their keys. */
  datatype Puzzles = Puzzles(combinations: Option<map<string, Combination>>,
                             anagrams: Option<seq<(string, Anagram)>>)

  datatype Config = Config(startingRoom: string, gameOverMessage: string, invalidCommandMessage: string,
                           invalidDirectionMessage: string, cantGoMessage: string, invalidItemMessage: string,
                           noSuchItemMessage: string, dontHaveItemMessage: string, cantUseMessage: string,
                           inventoryEmptyMessage: string, inventoryContentsPrefix: string)

  /** Everything loaded once and never changed. */
  datatype World = World(config: Config, rules: Rules, puzzles: Puzzles)

  /** The rooms (whose items change) and `gameState`. */
  datatype State = State(rooms: map<string, Room>, currentRoom: string, inventory: seq<string>,
                         gameOver: bool, state: map<string, bool>, solvedPuzzles: seq<string>)

  /** What a handler leaves behind: the new state and the text it returns. */
  datatype Turn = Turn(after: State, text: string)

  /** What a command leaves behind: the new state and the texts displayed, in order. */
  datatype Round = Round(after: State, shown: seq<string>)

  const HelpText: string :=
    "Available commands:\n- go [direction]: Move in a direction\n- take [item]: Pick up an item\n"
    + "- use [item]: Use an item\n- use [item] with [item]: Combine two items\n- look: Look around\n"
    + "- inventory: Check your inventory\n- solve [answer]: Solve an anagram puzzle\n"
    + "- help: Show this help message"

  // ---------------------------------------------------------------- rooms

  /** Every exit leads to a room of the map. */
  predicate ExitsClosed(rooms: map<string, Room>) {
    forall r, i :: r in rooms && 0 <= i < |rooms[r].exits| ==> rooms[r].exits[i].1 in rooms
  }

  /** The state every handler needs: the current room exists and so does every exit target. */
  predicate WellFormed(s: State) {
    s.currentRoom in s.rooms && ExitsClosed(s.rooms)
  }

  /** `b` is `a` with at most the items of its rooms changed. */
  predicate SameLayout(a: map<string, Room>, b: map<string, Room>) {
    a.Keys == b.Keys && forall r :: r in a ==> b[r] == a[r].(items := b[r].items)
  }

  lemma SameLayoutKeepsExits(a: map<string, Room>, b: map<string, Room>)
    requires SameLayout(a, b) && ExitsClosed(a)
    ensures ExitsClosed(b)
  {
    forall r, i | r in b && 0 <= i < |b[r].exits| ensures b[r].exits[i].1 in b {
      assert b[r].exits == a[r].exits;
    }
  }

  /** Removing the `i`-th element removes one copy of it and nothing else. */
  lemma Splice(xs: seq<string>, i: nat)
    requires i < |xs|
    ensures multiset(xs) == multiset(xs[..i] + xs[i + 1..]) + multiset{xs[i]}
  {
    assert xs == xs[..i] + [xs[i]] + xs[i + 1..];
  }

  /** Replacing the items of one room keeps the layout and leaves every other room as it was. */
  lemma NewItems(rooms: map<string, Room>, r: string, items: seq<string>)
    requires r in rooms && ExitsClosed(rooms)
    ensures var after := rooms[r := rooms[r].(items := items)];
      && SameLayout(rooms, after) && ExitsClosed(after)
      && forall q :: q in rooms && q != r ==> after[q] == rooms[q]
  {
    SameLayoutKeepsExits(rooms, rooms[r := rooms[r].(items := items)]);
  }

  // ---------------------------------------------------------------- item names

  /** `normalizeItemName`: lower-cased, with all white space removed. */
  function Normalize(name: string): (r: string)
    ensures NoWhitespace(r)
    ensures forall c :: c in r ==> !IsUpper(c)
  {
    RemoveWhitespace(ToLower(name))
  }

  lemma NormalizeIdempotent(name: string)
    ensures Normalize(Normalize(name)) == Normalize(name)
  {
    var r := Normalize(name);
    assert NoCapitals(r) by {
      forall k | 0 <= k < |r| ensures !IsUpper(r[k]) { assert r[k] in r; }
    }
    ToLowerKeeps(r);
  }

  lemma NormalizeConcat(a: string, b: string)
    ensures Normalize(a + b) == Normalize(a) + Normalize(b)
  {
    ToLowerConcat(a, b);
    RemoveWhitespaceConcat(ToLower(a), ToLower(b));
  }

  lemma NormalizeWhitespace(a: string)
    requires AllWhitespace(a)
    ensures Normalize(a) == []
  {
    assert AllWhitespace(ToLower(a));
  }

  /** `replace(/([A-Z])/g, ' $1')`: a space before every capital letter. */
  function SpaceCapitals(s: string): string {
    if s == [] then []
    else (if IsUpper(s[0]) then [' ', s[0]] else [s[0]]) + SpaceCapitals(s[1..])
  }

  /** `replace(/^./, c => c.toUpperCase())`: the first character capitalised unless it is a line terminator. */
  function CapitalizeFirst(s: string): string {
    if s != [] && !IsLineTerminator(s[0]) then [UpperChar(s[0])] + s[1..] else s
  }

  /** `formatItemName`: the display form of an item name (`goldenIdol` becomes `Golden Idol`). */
  function Format(name: string): string {
    Trim(CapitalizeFirst(SpaceCapitals(name)))
  }

  /** The display form neither starts nor ends with white space. */
  lemma FormatTrimmed(name: string)
    ensures var r := Format(name); r == [] || (!IsWhitespace(r[0]) && !IsWhitespace(r[|r| - 1]))
  {
    TrimTrimmed(CapitalizeFirst(SpaceCapitals(name)));
  }

  lemma {:induction false} NormalizeSpaceCapitals(s: string)
    ensures Normalize(SpaceCapitals(s)) == Normalize(s)
  {
    if s != [] {
      var head := if IsUpper(s[0]) then [' ', s[0]] else [s[0]];
      NormalizeSpaceCapitals(s[1..]);
      NormalizeConcat(head, SpaceCapitals(s[1..]));
      assert s == [s[0]] + s[1..];
      NormalizeConcat([s[0]], s[1..]);
      if IsUpper(s[0]) {
        assert head == [' '] + [s[0]];
        NormalizeConcat([' '], [s[0]]);
        NormalizeWhitespace([' ']);
      }
    }
  }

  lemma NormalizeCapitalizeFirst(s: string)
    ensures Normalize(CapitalizeFirst(s)) == Normalize(s)
  {
    if s != [] && !IsLineTerminator(s[0]) {
      var c := s[0];
      assert s == [c] + s[1..];
      NormalizeConcat([c], s[1..]);
      NormalizeConcat([UpperChar(c)], s[1..]);
      assert LowerChar(UpperChar(c)) == LowerChar(c);
      assert ToLower([UpperChar(c)]) == ToLower([c]);
    }
  }

  lemma NormalizeTrim(s: string)
    ensures Normalize(Trim(s)) == Normalize(s)
  {
    var k := TrimParts(s);
    var a, b := s[..k], s[k + |Trim(s)|..];
    NormalizeConcat(a + Trim(s), b);
    NormalizeConcat(a, Trim(s));
    NormalizeWhitespace(a);
    NormalizeWhitespace(b);
  }

  /** The display form of an item still names it: typing it back selects the same item. */
  lemma FormatNormalizes(name: string)
    ensures Normalize(Format(name)) == Normalize(name)
  {
    NormalizeTrim(CapitalizeFirst(SpaceCapitals(name)));
    NormalizeCapitalizeFirst(SpaceCapitals(name));
    NormalizeSpaceCapitals(name);
  }

  /** The first item whose normalized name is `key` (`findIndex`), if any. */
  function FindNormalized(xs: seq<string>, key: string): (r: Option<nat>)
    ensures r.Some? ==> r.value < |xs| && Normalize(xs[r.value]) == key
    ensures r.Some? ==> forall j :: 0 <= j < r.value ==> Normalize(xs[j]) != key
    ensures r.None? ==> forall j :: 0 <= j < |xs| ==> Normalize(xs[j]) != key
  {
    if xs == [] then None
    else if Normalize(xs[0]) == key then Some(0)
    else
      match FindNormalized(xs[1..], key)
      case None => None
      case Some(k) => Some(k + 1)
  }

  // ---------------------------------------------------------------- conditions

  /** The flag `key` of `gameState.state`, absent when it was never set. */
  function Flag(state: map<string, bool>, key: string): Option<bool> {
    if key in state then Some(state[key]) else None
  }

  /** `every(item => inventory.includes(item))`. */
  function AllHeld(items: seq<string>, inventory: seq<string>): (ok: bool)
    ensures ok <==> forall i :: 0 <= i < |items| ==> items[i] in inventory
  {
    if items == [] then true else items[0] in inventory && AllHeld(items[1..], inventory)
  }

  /** The condition tests the inventory (a list, or a non-empty item name). */
  predicate TestsInventory(c: Condition) {
    c.inventory.HeldAll? || (c.inventory.HeldItem? && c.inventory.item != "")
  }

  /** `checkCondition`. */
  function CheckCondition(c: Option<Condition>, inventory: seq<string>, state: map<string, bool>): (ok: bool)
    ensures c.None? ==> ok
    ensures c.Some? && c.value.inventory.HeldAll? ==>
              (ok <==> forall i :: 0 <= i < |c.value.inventory.items| ==> c.value.inventory.items[i] in inventory)
    ensures c.Some? && c.value.inventory.HeldItem? && c.value.inventory.item != "" ==>
              (ok <==> c.value.inventory.item in inventory)
    ensures c.Some? && !TestsInventory(c.value) && c.value.state != "" ==>
              (ok <==> Flag(state, c.value.state) == c.value.value)
    ensures c.Some? && !TestsInventory(c.value) && c.value.state == "" ==> ok
  {
    match c
    case None => true
    case Some(cond) =>
      if cond.inventory.HeldAll? then AllHeld(cond.inventory.items, inventory)
      else if cond.inventory.HeldItem? && cond.inventory.item != "" then cond.inventory.item in inventory
      else if cond.state != "" then Flag(state, cond.state) == cond.value
      else true
  }

  /** A condition on the inventory ignores the flags, even when it also names one. */
  lemma InventoryBeforeState(c: Condition, inventory: seq<string>, s1: map<string, bool>, s2: map<string, bool>)
    requires TestsInventory(c)
    ensures CheckCondition(Some(c), inventory, s1) == CheckCondition(Some(c), inventory, s2)
  {
  }

  /** A condition met by an inventory is met by any inventory holding at least its items. */
  lemma ConditionMonotone(c: Option<Condition>, inv1: seq<string>, inv2: seq<string>, state: map<string, bool>)
    requires forall x :: x in inv1 ==> x in inv2
    requires CheckCondition(c, inv1, state)
    ensures CheckCondition(c, inv2, state)
  {
  }

  // ---------------------------------------------------------------- movement

  /** What arriving in a room returns. */
  function Arrival(room: Room): string {
    room.description + "\n\n\nAvailable actions: " + Join(room.choices, ", ")
  }

  /** `handleMovement`. */
  function Move(w: World, s: State, direction: string): Turn
    requires WellFormed(s)
  {
    if direction == "" then Turn(s, w.config.invalidDirectionMessage)
    else
      var room := s.rooms[s.currentRoom];
      match FirstKeyIncluded(room.exits, direction)
      case None => Turn(s, w.config.cantGoMessage)
      case Some(i) =>
        var dir, next := room.exits[i].0, room.exits[i].1;
        if next in w.rules.enterConditions && !CheckCondition(w.rules.enterConditions[next], s.inventory, s.state) then
          Turn(s, w.rules.enterConditions[next].value.message)
        else if dir in room.requiredItems && !AllHeld(room.requiredItems[dir], s.inventory) then
          if dir in room.deathMessages && room.deathMessages[dir] != "" then
            Turn(s.(gameOver := true), room.deathMessages[dir])
          else
            Turn(s, "You need " + Join(room.requiredItems[dir], " and ") + " to go that way.")
        else
          Turn(s.(currentRoom := next), Arrival(s.rooms[next]))
  }

  /**
   * A move changes at most the current room and the game-over flag. The room changes
   * only through the first exit, in order, whose name the typed direction contains,
   * and only when its room admits the player and every item that exit needs is held;
   * the game ends only when items are missing and that exit has a death message.
   */
  lemma MoveOutcome(w: World, s: State, direction: string)
    requires WellFormed(s)
    ensures var t := Move(w, s, direction);
      && WellFormed(t.after)
      && t.after == s.(currentRoom := t.after.currentRoom, gameOver := t.after.gameOver)
      && (t.after.currentRoom != s.currentRoom ==>
            exists i :: 0 <= i < |s.rooms[s.currentRoom].exits|
              && FirstKeyIncluded(s.rooms[s.currentRoom].exits, direction) == Some(i)
              && t.after.currentRoom == s.rooms[s.currentRoom].exits[i].1
              && (t.after.currentRoom in w.rules.enterConditions ==>
                    CheckCondition(w.rules.enterConditions[t.after.currentRoom], s.inventory, s.state))
              && var dir := s.rooms[s.currentRoom].exits[i].0;
                 (dir in s.rooms[s.currentRoom].requiredItems ==>
                    AllHeld(s.rooms[s.currentRoom].requiredItems[dir], s.inventory)))
      && (t.after.gameOver != s.gameOver ==>
            exists i :: 0 <= i < |s.rooms[s.currentRoom].exits|
              && FirstKeyIncluded(s.rooms[s.currentRoom].exits, direction) == Some(i)
              && var dir := s.rooms[s.currentRoom].exits[i].0;
                 && dir in s.rooms[s.currentRoom].requiredItems
                 && !AllHeld(s.rooms[s.currentRoom].requiredItems[dir], s.inventory)
                 && dir in s.rooms[s.currentRoom].deathMessages
                 && s.rooms[s.currentRoom].deathMessages[dir] != ""
                 && t.after.gameOver)
  {
  }

  /**
   * Conversely, the first exit whose name the typed direction contains is taken
   * whenever its room admits the player and every item it needs is held.
   */
  lemma MoveAllowed(w: World, s: State, direction: string, i: nat)
    requires WellFormed(s) && direction != ""
    requires var exits := s.rooms[s.currentRoom].exits;
      && i < |exits| && Includes(direction, exits[i].0)
      && forall j :: 0 <= j < i ==> !Includes(direction, exits[j].0)
    requires var room := s.rooms[s.currentRoom];
      var dir, next := room.exits[i].0, room.exits[i].1;
      && (next in w.rules.enterConditions ==> CheckCondition(w.rules.enterConditions[next], s.inventory, s.state))
      && (dir in room.requiredItems ==> AllHeld(room.requiredItems[dir], s.inventory))
    ensures var next := s.rooms[s.currentRoom].exits[i].1;
      Move(w, s, direction) == Turn(s.(currentRoom := next), Arrival(s.rooms[next]))
  {
    assert FirstKeyIncluded(s.rooms[s.currentRoom].exits, direction) == Some(i);
  }

  /** A direction that contains the name of no exit leaves everything as it was. */
  lemma MoveNowhere(w: World, s: State, direction: string)
    requires WellFormed(s) && direction != ""
    requires var exits := s.rooms[s.currentRoom].exits;
      forall j :: 0 <= j < |exits| ==> !Includes(direction, exits[j].0)
    ensures Move(w, s, direction) == Turn(s, w.config.cantGoMessage)
  {
    assert FirstKeyIncluded(s.rooms[s.currentRoom].exits, direction).None?;
  }

  // ---------------------------------------------------------------- taking

  /** `handleTake`. */
  function Take(w: World, s: State, itemName: string): Turn
    requires WellFormed(s)
  {
    if itemName == "" then Turn(s, w.config.invalidItemMessage)
    else
      var room := s.rooms[s.currentRoom];
      match FindNormalized(room.items, Normalize(itemName))
      case None => Turn(s, w.config.noSuchItemMessage)
      case Some(i) =>
        var actual := room.items[i];
        if actual in w.rules.takeConditions
           && !CheckCondition(w.rules.takeConditions[actual], s.inventory, s.state) then
          Turn(s.(gameOver := w.rules.takeConditions[actual].value.gameOver),
               w.rules.takeConditions[actual].value.failureMessage)
        else
          Turn(s.(rooms := s.rooms[s.currentRoom := room.(items := room.items[..i] + room.items[i + 1..])],
                  inventory := s.inventory + [actual]),
               "You take the " + Format(actual) + ".")
  }

  /**
   * A take changes nothing but the current room's items, the inventory and the
   * game-over flag, and loses or creates no item: what the room gives up the
   * inventory gains.
   */
  lemma TakeConserves(w: World, s: State, itemName: string)
    requires WellFormed(s)
    ensures var t := Take(w, s, itemName);
      && WellFormed(t.after) && SameLayout(s.rooms, t.after.rooms)
      && (forall r :: r in s.rooms && r != s.currentRoom ==> t.after.rooms[r] == s.rooms[r])
      && t.after == s.(rooms := t.after.rooms, inventory := t.after.inventory, gameOver := t.after.gameOver)
      && multiset(t.after.rooms[s.currentRoom].items) + multiset(t.after.inventory)
         == multiset(s.rooms[s.currentRoom].items) + multiset(s.inventory)
  {
    var t := Take(w, s, itemName);
    var room := s.rooms[s.currentRoom];
    var found := FindNormalized(room.items, Normalize(itemName));
    if itemName != "" && found.Some? {
      var i, items := found.value, room.items;
      var actual := items[i];
      if !(actual in w.rules.takeConditions && !CheckCondition(w.rules.takeConditions[actual], s.inventory, s.state)) {
        var rest := items[..i] + items[i + 1..];
        assert t.after == s.(rooms := s.rooms[s.currentRoom := room.(items := rest)], inventory := s.inventory + [actual]);
        Splice(items, i);
        NewItems(s.rooms, s.currentRoom, rest);
      }
    }
  }

  /**
   * A take that gets an item moves exactly one: the first item of the room whose
   * normalized name matches the typed one, under its own name.
   */
  lemma TakeFirstMatch(w: World, s: State, itemName: string)
    requires WellFormed(s)
    ensures var t := Take(w, s, itemName);
      var items := s.rooms[s.currentRoom].items;
      t.after.inventory != s.inventory ==>
        exists i :: 0 <= i < |items|
          && Normalize(items[i]) == Normalize(itemName)
          && (forall j :: 0 <= j < i ==> Normalize(items[j]) != Normalize(itemName))
          && t.after.inventory == s.inventory + [items[i]]
          && t.after.gameOver == s.gameOver
          && t.after.rooms[s.currentRoom].items == items[..i] + items[i + 1..]
          && t.text == "You take the " + Format(items[i]) + "."
  {
  }

  /**
   * Conversely, the first item of the room whose normalized name matches the typed
   * one is taken whenever no take condition on it fails.
   */
  lemma TakeSucceeds(w: World, s: State, itemName: string, k: nat)
    requires WellFormed(s) && itemName != ""
    requires var items := s.rooms[s.currentRoom].items;
      && k < |items| && Normalize(items[k]) == Normalize(itemName)
      && forall j :: 0 <= j < k ==> Normalize(items[j]) != Normalize(itemName)
    requires var actual := s.rooms[s.currentRoom].items[k];
      actual in w.rules.takeConditions ==> CheckCondition(w.rules.takeConditions[actual], s.inventory, s.state)
    ensures var t, items := Take(w, s, itemName), s.rooms[s.currentRoom].items;
      && t.after.inventory == s.inventory + [items[k]]
      && t.after.rooms[s.currentRoom].items == items[..k] + items[k + 1..]
      && t.after.gameOver == s.gameOver
      && t.text == "You take the " + Format(items[k]) + "."
  {
    assert FindNormalized(s.rooms[s.currentRoom].items, Normalize(itemName)) == Some(k);
  }

  /** A name that matches no item of the room, once normalized, leaves everything as it was. */
  lemma TakeNothing(w: World, s: State, itemName: string)
    requires WellFormed(s) && itemName != ""
    requires var items := s.rooms[s.currentRoom].items;
      forall j :: 0 <= j < |items| ==> Normalize(items[j]) != Normalize(itemName)
    ensures Take(w, s, itemName) == Turn(s, w.config.noSuchItemMessage)
  {
    assert FindNormalized(s.rooms[s.currentRoom].items, Normalize(itemName)).None?;
  }

  /** A take refused by the item's condition moves nothing and sets the game-over flag to the condition's. */
  lemma TakeBlocked(w: World, s: State, itemName: string)
    requires WellFormed(s) && itemName != ""
    requires var items := s.rooms[s.currentRoom].items;
      var found := FindNormalized(items, Normalize(itemName));
      && found.Some? && items[found.value] in w.rules.takeConditions
      && !CheckCondition(w.rules.takeConditions[items[found.value]], s.inventory, s.state)
    ensures var t := Take(w, s, itemName);
      var c := w.rules.takeConditions[s.rooms[s.currentRoom].items[FindNormalized(s.rooms[s.currentRoom].items, Normalize(itemName)).value]];
      && t.after == s.(gameOver := c.value.gameOver)
      && t.text == c.value.failureMessage
  {
  }

  // ---------------------------------------------------------------- combining

  /** `filter(item => item !== a && item !== b)`. */
  function Without(xs: seq<string>, a: string, b: string): (r: seq<string>)
    ensures a !in r && b !in r
    ensures forall x :: x != a && x != b ==> multiset(r)[x] == multiset(xs)[x]
  {
    if xs == [] then []
    else
      assert xs == [xs[0]] + xs[1..];
      if xs[0] != a && xs[0] != b then [xs[0]] + Without(xs[1..], a, b)
      else Without(xs[1..], a, b)
  }

  lemma {:induction false} WithoutSymmetric(xs: seq<string>, a: string, b: string)
    ensures Without(xs, a, b) == Without(xs, b, a)
  {
    if xs != [] {
      WithoutSymmetric(xs[1..], a, b);
    }
  }

  /** The combination `a_b`, or else `b_a`. */
  function Recipe(combos: map<string, Combination>, a: string, b: string): Option<Combination> {
    if a + "_" + b in combos then Some(combos[a + "_" + b])
    else if b + "_" + a in combos then Some(combos[b + "_" + a])
    else None
  }

  /** `handleCombination`. */
  function Combine(w: World, s: State, item1: string, item2: string): Turn {
    match w.puzzles.combinations
    case None => Turn(s, "Item combination is not possible.")
    case Some(combos) =>
      if item1 !in s.inventory || item2 !in s.inventory then Turn(s, w.config.dontHaveItemMessage)
      else
        match Recipe(combos, item1, item2)
        case None => Turn(s, "Those items cannot be combined.")
        case Some(c) =>
          var kept := if c.removeIngredients then Without(s.inventory, item1, item2) else s.inventory;
          Turn(s.(inventory := kept + [c.result]), c.message)
  }

  /**
   * Combining does not depend on the order the two items are named in, unless
   * both orders are keys with different combinations.
   */
  lemma CombineSymmetric(w: World, s: State, a: string, b: string)
    requires w.puzzles.combinations.Some?
    requires var combos := w.puzzles.combinations.value;
      a + "_" + b in combos && b + "_" + a in combos ==> combos[a + "_" + b] == combos[b + "_" + a]
    ensures Combine(w, s, a, b) == Combine(w, s, b, a)
  {
    WithoutSymmetric(s.inventory, a, b);
  }

  /**
   * A combination changes only the inventory: it gains the result at its end and,
   * when the ingredients are consumed, loses every copy of both and nothing else;
   * with no matching combination nothing changes.
   */
  lemma CombineOutcome(w: World, s: State, a: string, b: string)
    ensures var t := Combine(w, s, a, b);
      && t.after == s.(inventory := t.after.inventory)
      && (w.puzzles.combinations.None? || a !in s.inventory || b !in s.inventory
          || Recipe(w.puzzles.combinations.value, a, b).None?
          ==> t.after == s)
      && (w.puzzles.combinations.Some? && a in s.inventory && b in s.inventory
          && Recipe(w.puzzles.combinations.value, a, b).Some? ==>
            var c := Recipe(w.puzzles.combinations.value, a, b).value;
            var kept := t.after.inventory[..|t.after.inventory| - 1];
            && |t.after.inventory| >= 1 && t.after.inventory[|t.after.inventory| - 1] == c.result
            && t.text == c.message
            && (!c.removeIngredients ==> kept == s.inventory)
            && (c.removeIngredients ==>
                  a !in kept && b !in kept
                  && forall x :: x != a && x != b ==> multiset(kept)[x] == multiset(s.inventory)[x]))
  {
    var t := Combine(w, s, a, b);
    if w.puzzles.combinations.Some? && a in s.inventory && b in s.inventory
       && Recipe(w.puzzles.combinations.value, a, b).Some? {
      var c := Recipe(w.puzzles.combinations.value, a, b).value;
      var kept := if c.removeIngredients then Without(s.inventory, a, b) else s.inventory;
      assert t.after.inventory[..|t.after.inventory| - 1] == kept;
    }
  }

  // ---------------------------------------------------------------- using

  /** The flag `key` is set (an absent flag reads as false). */
  predicate IsSet(state: map<string, bool>, key: string) {
    Flag(state, key) == Some(true)
  }

  /** The part of `handleUse` that follows once the item `actual` is found in the inventory. */
  function UseHeld(w: World, s: State, actual: string): Turn
    requires WellFormed(s)
  {
    var room := s.rooms[s.currentRoom];
    if actual in room.itemUse && room.itemUse[actual] != "" then Turn(s, room.itemUse[actual])
    else if actual in w.rules.stateChangingItems then
      var item := w.rules.stateChangingItems[actual];
      var now := IsSet(s.state, item.toggleState);
      Turn(s.(state := s.state[item.toggleState := !now]), if !now then item.whenTrue else item.whenFalse)
    else
      Turn(s, w.config.cantUseMessage)
  }

  /** `handleUse`. */
  function Use(w: World, s: State, itemName: string): Turn
    requires WellFormed(s)
  {
    if itemName == "" then Turn(s, w.config.invalidItemMessage)
    else
      match IndexOf(itemName, " with ")
      case Some(k) => UseTogether(w, s, itemName, k)
      case None =>
        var key := Normalize(itemName);
        if s.currentRoom in w.rules.specialUses && key in w.rules.specialUses[s.currentRoom] then
          var action := w.rules.specialUses[s.currentRoom][key];
          Turn(s.(gameOver := action.gameOver), action.message)
        else
          match FindNormalized(s.inventory, key)
          case None => Turn(s, w.config.dontHaveItemMessage)
          case Some(j) => UseHeld(w, s, s.inventory[j])
  }

  /** `use a with b`, split at `k`: both halves must name held items, which are then combined. */
  function UseTogether(w: World, s: State, itemName: string, k: nat): Turn
    requires WellFormed(s) && k + 6 <= |itemName|
  {
    var first := FindNormalized(s.inventory, Normalize(itemName[..k]));
    var second := FindNormalized(s.inventory, Normalize(itemName[k + 6..]));
    if first.Some? && s.inventory[first.value] != "" && second.Some? && s.inventory[second.value] != "" then
      Combine(w, s, s.inventory[first.value], s.inventory[second.value])
    else
      Turn(s, w.config.dontHaveItemMessage)
  }

  /**
   * Using `itemName` reaches a state-changing item: no " with ", no special use of
   * the room for the name, the item is held, and the room has no message of its own
   * for it.
   */
  predicate Toggles(w: World, s: State, itemName: string)
    requires WellFormed(s)
  {
    var key := Normalize(itemName);
    var found := FindNormalized(s.inventory, key);
    var room := s.rooms[s.currentRoom];
    && itemName != "" && IndexOf(itemName, " with ").None?
    && !(s.currentRoom in w.rules.specialUses && key in w.rules.specialUses[s.currentRoom])
    && found.Some?
    && var actual := s.inventory[found.value];
       && !(actual in room.itemUse && room.itemUse[actual] != "")
       && actual in w.rules.stateChangingItems
  }

  /** What using a state-changing item does: it flips its flag, reading an absent flag as false. */
  lemma ToggleFlips(w: World, s: State, itemName: string)
    requires WellFormed(s) && Toggles(w, s, itemName)
    ensures var item := w.rules.stateChangingItems[s.inventory[FindNormalized(s.inventory, Normalize(itemName)).value]];
      Use(w, s, itemName).after == s.(state := s.state[item.toggleState := !IsSet(s.state, item.toggleState)])
  {
  }

  /** Beyond the room's items, finding a held item leaves everything but one flag as it was. */
  lemma UseHeldOutcome(w: World, s: State, actual: string)
    requires WellFormed(s)
    ensures var t := UseHeld(w, s, actual);
      var room := s.rooms[s.currentRoom];
      && (!(actual in room.itemUse && room.itemUse[actual] != "") && actual in w.rules.stateChangingItems ==>
            var k := w.rules.stateChangingItems[actual].toggleState;
            t.after == s.(state := s.state[k := !IsSet(s.state, k)]) && t.after.state != s.state)
      && ((actual in room.itemUse && room.itemUse[actual] != "") || actual !in w.rules.stateChangingItems ==>
            t.after == s)
  {
    var room := s.rooms[s.currentRoom];
    if !(actual in room.itemUse && room.itemUse[actual] != "") && actual in w.rules.stateChangingItems {
      var k := w.rules.stateChangingItems[actual].toggleState;
      var flipped := s.state[k := !IsSet(s.state, k)];
      assert k !in s.state || flipped[k] != s.state[k];
    }
  }

  /** `use a with b` changes at most the inventory, as combining does, and is no toggle. */
  lemma UseWithOutcome(w: World, s: State, itemName: string, k: nat)
    requires WellFormed(s) && itemName != "" && IndexOf(itemName, " with ") == Some(k)
    ensures var t := Use(w, s, itemName);
      t.after == s.(inventory := t.after.inventory) && !Toggles(w, s, itemName)
  {
    assert Use(w, s, itemName) == UseTogether(w, s, itemName, k);
    var first := FindNormalized(s.inventory, Normalize(itemName[..k]));
    var second := FindNormalized(s.inventory, Normalize(itemName[k + 6..]));
    if first.Some? && s.inventory[first.value] != "" && second.Some? && s.inventory[second.value] != "" {
      CombineOutcome(w, s, s.inventory[first.value], s.inventory[second.value]);
    }
  }

  /**
   * Using an item changes neither the rooms, the current room nor the solved puzzles;
   * it changes the flags exactly when it reaches a state-changing item, and then only
   * by flipping one of them.
   */
  lemma UseTogglesOne(w: World, s: State, itemName: string)
    requires WellFormed(s)
    ensures var t := Use(w, s, itemName);
      && WellFormed(t.after) && t.after.rooms == s.rooms && t.after.currentRoom == s.currentRoom
      && t.after.solvedPuzzles == s.solvedPuzzles
      && (t.after.state != s.state <==> Toggles(w, s, itemName))
      && (t.after.state == s.state || exists k :: t.after.state == s.state[k := !IsSet(s.state, k)])
  {
    if itemName != "" {
      match IndexOf(itemName, " with ")
      case Some(k) =>
        UseWithOutcome(w, s, itemName, k);
      case None =>
        var key := Normalize(itemName);
        if s.currentRoom in w.rules.specialUses && key in w.rules.specialUses[s.currentRoom] {
          assert Use(w, s, itemName).after == s.(gameOver := w.rules.specialUses[s.currentRoom][key].gameOver);
        } else {
          match FindNormalized(s.inventory, key)
          case None =>
            assert Use(w, s, itemName).after == s;
          case Some(j) =>
            assert Use(w, s, itemName) == UseHeld(w, s, s.inventory[j]);
            UseHeldOutcome(w, s, s.inventory[j]);
        }
    }
  }

  /**
   * Using a state-changing item twice gives every flag back the value it read as
   * before (an absent flag comes back as false), and changes nothing else.
   */
  lemma ToggleTwice(w: World, s: State, itemName: string)
    requires WellFormed(s) && Toggles(w, s, itemName)
    ensures var once := Use(w, s, itemName);
      var twice := Use(w, once.after, itemName);
      && twice.after == s.(state := twice.after.state)
      && forall k :: IsSet(twice.after.state, k) == IsSet(s.state, k)
  {
    ToggleFlips(w, s, itemName);
    var once := Use(w, s, itemName);
    assert Toggles(w, once.after, itemName);
    ToggleFlips(w, once.after, itemName);
  }

  // ---------------------------------------------------------------- anagrams

  /** Puzzle `id` is open in a room listing `here`: not solved yet, and listed by the room. */
  predicate Open(id: string, solved: seq<string>, here: Option<seq<string>>) {
    id !in solved && here.Some? && id in here.value
  }

  /** The first puzzle, in key order, that is open here. */
  function FirstOpen(anagrams: seq<(string, Anagram)>, solved: seq<string>, here: Option<seq<string>>): (r: Option<nat>)
    ensures r.Some? ==> r.value < |anagrams| && Open(anagrams[r.value].0, solved, here)
    ensures r.Some? ==> forall j :: 0 <= j < r.value ==> !Open(anagrams[j].0, solved, here)
    ensures r.None? ==> forall j :: 0 <= j < |anagrams| ==> !Open(anagrams[j].0, solved, here)
  {
    if anagrams == [] then None
    else if Open(anagrams[0].0, solved, here) then Some(0)
    else
      match FirstOpen(anagrams[1..], solved, here)
      case None => None
      case Some(k) => Some(k + 1)
  }

  /** `handleAnagramPuzzle`. */
  function Solve(w: World, s: State, answer: string): Turn
    requires WellFormed(s)
  {
    match w.puzzles.anagrams
    case None => Turn(s, "There are no anagram puzzles to solve.")
    case Some(anagrams) =>
      match FirstOpen(anagrams, s.solvedPuzzles, s.rooms[s.currentRoom].puzzles)
      case None => Turn(s, "There are no anagram puzzles to solve here.")
      case Some(i) =>
        var id, puzzle := anagrams[i].0, anagrams[i].1;
        // `if (!puzzleId)`: an empty key is taken for no puzzle at all
        if id == "" then Turn(s, "There are no anagram puzzles to solve here.")
        else if ToLower(answer) == ToLower(puzzle.solution) then
          if puzzle.reward != "" then
            Turn(s.(solvedPuzzles := s.solvedPuzzles + [id], inventory := s.inventory + [puzzle.reward]),
                 "Correct! You've solved the puzzle and received: " + puzzle.reward)
          else
            Turn(s.(solvedPuzzles := s.solvedPuzzles + [id]), "Correct! You've solved the puzzle!")
        else
          Turn(s, if puzzle.hint != "" then puzzle.hint else "That's not the correct solution.")
  }

  /** The answer is compared without regard to case. */
  lemma SolveIgnoresCase(w: World, s: State, a: string, b: string)
    requires WellFormed(s) && ToLower(a) == ToLower(b)
    ensures Solve(w, s, a).after == Solve(w, s, b).after
  {
  }

  /**
   * An answer either changes nothing, or it is the solution of the first puzzle open
   * in this room, which is then recorded as solved (so it is never selected again)
   * and whose reward, if any, joins the inventory.
   */
  lemma SolveOutcome(w: World, s: State, answer: string)
    requires WellFormed(s)
    ensures var t := Solve(w, s, answer);
      t.after == s ||
        (exists i ::
          && w.puzzles.anagrams.Some? && 0 <= i < |w.puzzles.anagrams.value|
          && FirstOpen(w.puzzles.anagrams.value, s.solvedPuzzles, s.rooms[s.currentRoom].puzzles) == Some(i)
          && var id, puzzle := w.puzzles.anagrams.value[i].0, w.puzzles.anagrams.value[i].1;
             && id != ""
             && ToLower(answer) == ToLower(puzzle.solution)
             && id !in s.solvedPuzzles && id in t.after.solvedPuzzles
             && t.after.solvedPuzzles == s.solvedPuzzles + [id]
             && t.after.inventory == s.inventory + (if puzzle.reward != "" then [puzzle.reward] else [])
             && t.after == s.(solvedPuzzles := t.after.solvedPuzzles, inventory := t.after.inventory))
  {
  }

  /**
   * Conversely, the solution of the first puzzle open in this room, when that puzzle
   * has a key, always solves it: its key is recorded and its reward, if any, received.
   */
  lemma SolveSucceeds(w: World, s: State, answer: string, i: nat)
    requires WellFormed(s) && w.puzzles.anagrams.Some? && i < |w.puzzles.anagrams.value|
    requires FirstOpen(w.puzzles.anagrams.value, s.solvedPuzzles, s.rooms[s.currentRoom].puzzles) == Some(i)
    requires w.puzzles.anagrams.value[i].0 != ""
    requires ToLower(answer) == ToLower(w.puzzles.anagrams.value[i].1.solution)
    ensures var id, puzzle := w.puzzles.anagrams.value[i].0, w.puzzles.anagrams.value[i].1;
      var t := Solve(w, s, answer);
      && t.after == s.(solvedPuzzles := s.solvedPuzzles + [id],
                       inventory := s.inventory + (if puzzle.reward != "" then [puzzle.reward] else []))
      && t.text == (if puzzle.reward != "" then "Correct! You've solved the puzzle and received: " + puzzle.reward
                    else "Correct! You've solved the puzzle!")
  {
    if w.puzzles.anagrams.value[i].1.reward == "" {
      assert s.inventory + [] == s.inventory;
    }
  }

  /** A first open puzzle whose key is empty counts as no puzzle: nothing changes. */
  lemma SolveEmptyKey(w: World, s: State, answer: string, i: nat)
    requires WellFormed(s) && w.puzzles.anagrams.Some? && i < |w.puzzles.anagrams.value|
    requires FirstOpen(w.puzzles.anagrams.value, s.solvedPuzzles, s.rooms[s.currentRoom].puzzles) == Some(i)
    requires w.puzzles.anagrams.value[i].0 == ""
    ensures Solve(w, s, answer) == Turn(s, "There are no anagram puzzles to solve here.")
  {
  }

  /** Any other answer to an open puzzle changes nothing and returns its hint, or a stock reply. */
  lemma SolveRefuses(w: World, s: State, answer: string, i: nat)
    requires WellFormed(s) && w.puzzles.anagrams.Some? && i < |w.puzzles.anagrams.value|
    requires FirstOpen(w.puzzles.anagrams.value, s.solvedPuzzles, s.rooms[s.currentRoom].puzzles) == Some(i)
    requires w.puzzles.anagrams.value[i].0 != ""
    requires ToLower(answer) != ToLower(w.puzzles.anagrams.value[i].1.solution)
    ensures var puzzle := w.puzzles.anagrams.value[i].1;
      Solve(w, s, answer) == Turn(s, if puzzle.hint != "" then puzzle.hint else "That's not the correct solution.")
  {
  }

  // ---------------------------------------------------------------- other commands

  /** `handleLook`. */
  function Look(room: Room): string {
    room.description
    + (if |room.items| > 0 then "\nYou see: " + Join(room.items, ", ") else "")
    + "\n\n\nAvailable actions: " + Join(room.choices, ", ")
  }

  /** `handleInventory`. */
  function InventoryText(config: Config, inventory: seq<string>): string {
    if |inventory| == 0 then config.inventoryEmptyMessage
    else config.inventoryContentsPrefix + Join(inventory, ", ")
  }

  /**
   * An empty inventory gets the configured message; any other is announced by the
   * configured prefix and followed by a text in which every item held shows up.
   */
  lemma InventoryTextLists(config: Config, inventory: seq<string>)
    ensures inventory == [] ==> InventoryText(config, inventory) == config.inventoryEmptyMessage
    ensures var r, prefix := InventoryText(config, inventory), config.inventoryContentsPrefix;
      inventory != [] ==>
        && prefix <= r
        && forall i :: 0 <= i < |inventory| ==> Includes(r[|prefix|..], inventory[i])
  {
    if inventory != [] {
      var r, prefix := InventoryText(config, inventory), config.inventoryContentsPrefix;
      assert r[|prefix|..] == Join(inventory, ", ");
      forall i | 0 <= i < |inventory|
        ensures Includes(r[|prefix|..], inventory[i])
      {
        JoinShows(inventory, ", ", i);
      }
    }
  }

  // ---------------------------------------------------------------- win and death

  predicate Won(c: WinCondition, s: State) {
    s.currentRoom == c.room && CheckCondition(c.needs, s.inventory, s.state)
  }

  /**
   * `!chance || Math.random() < chance`, with `roll` the outcome of the comparison
   * when it can go either way: no chance always fires, a chance of 1 or more always
   * fires, a negative one never does.
   */
  predicate Fires(chance: real, roll: bool) {
    chance == 0.0 || (chance > 0.0 && (chance >= 1.0 || roll))
  }

  /** The outcome of the random draw for the `i`-th death condition. */
  function Roll(rolls: seq<bool>, i: nat): bool {
    i < |rolls| && rolls[i]
  }

  predicate Dies(c: DeathCondition, s: State, roll: bool) {
    s.currentRoom == c.room && CheckCondition(c.when, s.inventory, s.state) && Fires(c.chance, roll)
  }

  /** The first win condition, from index `i` on, that holds. */
  function FirstWin(wins: seq<WinCondition>, s: State, i: nat): (r: Option<nat>)
    requires i <= |wins|
    decreases |wins| - i
    ensures r.Some? ==> i <= r.value < |wins| && Won(wins[r.value], s)
    ensures r.Some? ==> forall j :: i <= j < r.value ==> !Won(wins[j], s)
    ensures r.None? ==> forall j :: i <= j < |wins| ==> !Won(wins[j], s)
  {
    if i == |wins| then None
    else if Won(wins[i], s) then Some(i)
    else FirstWin(wins, s, i + 1)
  }

  /** The first death condition, from index `i` on, that fires. */
  function FirstDeath(deaths: seq<DeathCondition>, s: State, rolls: seq<bool>, i: nat): (r: Option<nat>)
    requires i <= |deaths|
    decreases |deaths| - i
    ensures r.Some? ==> i <= r.value < |deaths| && Dies(deaths[r.value], s, Roll(rolls, r.value))
    ensures r.Some? ==> forall j :: i <= j < r.value ==> !Dies(deaths[j], s, Roll(rolls, j))
    ensures r.None? ==> forall j :: i <= j < |deaths| ==> !Dies(deaths[j], s, Roll(rolls, j))
  {
    if i == |deaths| then None
    else if Dies(deaths[i], s, Roll(rolls, i)) then Some(i)
    else FirstDeath(deaths, s, rolls, i + 1)
  }

  /** `checkWinOrDeath`: the first win condition that holds, else the first death that fires, ends the game. */
  function WinOrDeath(w: World, s: State, rolls: seq<bool>): Round {
    match FirstWin(w.rules.winConditions, s, 0)
    case Some(i) => Round(s.(gameOver := true), [w.rules.winConditions[i].message])
    case None =>
      match FirstDeath(w.rules.deathConditions, s, rolls, 0)
      case Some(i) => Round(s.(gameOver := true), [w.rules.deathConditions[i].message])
      case None => Round(s, [])
  }

  /**
   * The checks change nothing but the game-over flag and show at most one message.
   * Any win condition that holds ends the game with the first such one's message;
   * so does, when none holds, any death condition that fires; otherwise nothing
   * happens.
   */
  lemma WinOrDeathOutcome(w: World, s: State, rolls: seq<bool>)
    ensures var r := WinOrDeath(w, s, rolls);
      var wins, deaths := w.rules.winConditions, w.rules.deathConditions;
      && r.after == s.(gameOver := r.after.gameOver) && |r.shown| <= 1
      && (r.shown != [] ==> r.after.gameOver)
      && ((exists i :: 0 <= i < |wins| && Won(wins[i], s)) ==>
            exists i :: 0 <= i < |wins| && Won(wins[i], s) && r.shown == [wins[i].message]
              && forall j :: 0 <= j < i ==> !Won(wins[j], s))
      && ((forall i :: 0 <= i < |wins| ==> !Won(wins[i], s)) ==>
            ((exists i :: 0 <= i < |deaths| && Dies(deaths[i], s, Roll(rolls, i))) <==> r.shown != []))
      && ((forall i :: 0 <= i < |wins| ==> !Won(wins[i], s))
          && (forall i :: 0 <= i < |deaths| ==> !Dies(deaths[i], s, Roll(rolls, i)))
          ==> r == Round(s, []))
  {
    var wins, deaths := w.rules.winConditions, w.rules.deathConditions;
    match FirstWin(wins, s, 0)
    case Some(i) =>
    case None =>
      match FirstDeath(deaths, s, rolls, 0)
      case Some(i) =>
      case None =>
  }

  // ---------------------------------------------------------------- commands

  /** The `switch` of `processCommand`. */
  function Dispatch(w: World, s: State, verb: string, argument: string): Turn
    requires WellFormed(s)
  {
    if verb == "go" then Move(w, s, argument)
    else if verb == "take" then Take(w, s, argument)
    else if verb == "use" then Use(w, s, argument)
    else if verb == "look" then Turn(s, Look(s.rooms[s.currentRoom]))
    else if verb == "inventory" then Turn(s, InventoryText(w.config, s.inventory))
    else if verb == "help" then Turn(s, HelpText)
    else if verb == "solve" then Solve(w, s, argument)
    else Turn(s, w.config.invalidCommandMessage)
  }

  /**
   * `processCommand` for the text typed: a finished game only says so; an empty
   * command is refused; otherwise the trimmed, lower-cased command is split into a
   * verb and the rest, dispatched, and followed by the win and death checks unless
   * the handler already ended the game.
   */
  function Respond(w: World, s: State, raw: string, rolls: seq<bool>): Round
    requires WellFormed(s)
  {
    if s.gameOver then Round(s, [w.config.gameOverMessage])
    else
      var input := ToLower(Trim(raw));
      if input == "" then Round(s, ["Please enter a command."])
      else
        var t := Dispatch(w, s, Verb(input), Argument(input));
        if t.after.gameOver then Round(t.after, [t.text])
        else
          var r := WinOrDeath(w, t.after, rolls);
          Round(r.after, [t.text] + r.shown)
  }

  /** Every handler keeps the room map's layout, so the state stays valid. */
  lemma DispatchKeepsLayout(w: World, s: State, verb: string, argument: string)
    requires WellFormed(s)
    ensures WellFormed(Dispatch(w, s, verb, argument).after)
    ensures SameLayout(s.rooms, Dispatch(w, s, verb, argument).after.rooms)
    ensures s.solvedPuzzles <= Dispatch(w, s, verb, argument).after.solvedPuzzles
  {
    if verb == "go" {
      MoveOutcome(w, s, argument);
    } else if verb == "take" {
      TakeConserves(w, s, argument);
    } else if verb == "use" {
      UseTogglesOne(w, s, argument);
    } else if verb == "solve" {
      SolveOutcome(w, s, argument);
    }
  }

  /**
   * A command keeps the state valid and never forgets a solved puzzle; once the
   * game is over every command leaves the state exactly as it is and only shows
   * the game-over message.
   */
  lemma RespondOutcome(w: World, s: State, raw: string, rolls: seq<bool>)
    requires WellFormed(s)
    ensures var r := Respond(w, s, raw, rolls);
      && WellFormed(r.after) && SameLayout(s.rooms, r.after.rooms)
      && s.solvedPuzzles <= r.after.solvedPuzzles
      && (s.gameOver ==> r == Round(s, [w.config.gameOverMessage]))
      && (s.gameOver ==> r.after.gameOver)
      && |r.shown| >= 1
  {
    if !s.gameOver {
      var input := ToLower(Trim(raw));
      if input != "" {
        DispatchKeepsLayout(w, s, Verb(input), Argument(input));
        var t := Dispatch(w, s, Verb(input), Argument(input));
        WinOrDeathOutcome(w, t.after, rolls);
      }
    }
  }

  /** The state after a run of commands, each with its own random draws. */
  function Play(w: World, s: State, commands: seq<(string, seq<bool>)>): (r: State)
    requires WellFormed(s)
    ensures WellFormed(r)
    decreases |commands|
  {
    if commands == [] then s
    else
      RespondOutcome(w, s, commands[0].0, commands[0].1);
      Play(w, Respond(w, s, commands[0].0, commands[0].1).after, commands[1..])
  }

  /** Once the game is over, no run of commands changes anything. */
  lemma {:induction false} GameOverIsFinal(w: World, s: State, commands: seq<(string, seq<bool>)>)
    requires WellFormed(s) && s.gameOver
    ensures Play(w, s, commands) == s
    decreases |commands|
  {
    if commands != [] {
      GameOverIsFinal(w, s, commands[1..]);
    }
  }

  /** A run of commands keeps every room's exits and never forgets a solved puzzle. */
  lemma {:induction false} PlayKeepsProgress(w: World, s: State, commands: seq<(string, seq<bool>)>)
    requires WellFormed(s)
    ensures SameLayout(s.rooms, Play(w, s, commands).rooms)
    ensures s.solvedPuzzles <= Play(w, s, commands).solvedPuzzles
    decreases |commands|
  {
    if commands != [] {
      var next := Respond(w, s, commands[0].0, commands[0].1).after;
      RespondOutcome(w, s, commands[0].0, commands[0].1);
      PlayKeepsProgress(w, next, commands[1..]);
    }
  }

  // ---------------------------------------------------------------- the class

  class Game {
    const config: Config
    const rules: Rules
    const puzzles: Puzzles
    var rooms: map<string, Room>
    var currentRoom: string
    var inventory: seq<string>
    var gameOver: bool
    var state: map<string, bool>
    var solvedPuzzles: seq<string>

    function Setup(): World
      reads this
    {
      World(config, rules, puzzles)
    }

    function Snapshot(): State
      reads this
    {
      State(rooms, currentRoom, inventory, gameOver, state, solvedPuzzles)
    }

    ghost predicate Valid()
      reads this
    {
      WellFormed(Snapshot())
    }

    /** The game once the configuration has loaded: in the starting room, with nothing done yet. */
    constructor (rooms: map<string, Room>, config: Config, rules: Rules, puzzles: Puzzles)
      requires config.startingRoom in rooms && ExitsClosed(rooms)
      ensures Valid()
      ensures Setup() == World(config, rules, puzzles)
      ensures Snapshot() == State(rooms, config.startingRoom, [], false, map[], [])
    {
      this.config := config;
      this.rules := rules;
      this.puzzles := puzzles;
      this.rooms := rooms;
      currentRoom := config.startingRoom;
      inventory := [];
      gameOver := false;
      state := map[];
      solvedPuzzles := [];
    }

    /** `processCommand`, given the text typed and the random draws of the death checks. */
    method ProcessCommand(input: string, rolls: seq<bool>) returns (shown: seq<string>)
      requires Valid()
      modifies this
      ensures Valid()
      ensures Round(Snapshot(), shown) == Respond(Setup(), old(Snapshot()), input, rolls)
    {
      if gameOver {
        return [config.gameOverMessage];
      }
      var command := ToLower(Trim(input));
      var verb := Verb(command);
      var argument := Argument(command);
      if command == "" {
        return ["Please enter a command."];
      }
      ghost var s0 := Snapshot();
      var response;
      if verb == "go" {
        response := HandleMovement(argument);
      } else if verb == "take" {
        response := HandleTake(argument);
      } else if verb == "use" {
        response := HandleUse(argument);
      } else if verb == "look" {
        response := Look(rooms[currentRoom]);
      } else if verb == "inventory" {
        response := InventoryText(config, inventory);
      } else if verb == "help" {
        response := HelpText;
      } else if verb == "solve" {
        response := HandleAnagramPuzzle(argument);
      } else {
        response := config.invalidCommandMessage;
      }
      assert Turn(Snapshot(), response) == Dispatch(Setup(), s0, verb, argument);
      DispatchKeepsLayout(Setup(), s0, verb, argument);
      shown := [response];
      if !gameOver {
        WinOrDeathOutcome(Setup(), Snapshot(), rolls);
        var verdict := CheckWinOrDeath(rolls);
        shown := shown + verdict;
      }
    }

    method HandleMovement(direction: string) returns (message: string)
      requires Valid()
      modifies this
      ensures Turn(Snapshot(), message) == Move(Setup(), old(Snapshot()), direction)
    {
      if direction == "" {
        return config.invalidDirectionMessage;
      }
      var room := rooms[currentRoom];
      var found := FindKeyIncluded(room.exits, direction);
      if found.None? {
        return config.cantGoMessage;
      }
      var dir, next := room.exits[found.value].0, room.exits[found.value].1;
      if next in rules.enterConditions {
        var condition := rules.enterConditions[next];
        if !CheckCondition(condition, inventory, state) {
          return condition.value.message;
        }
      }
      if dir in room.requiredItems {
        var required := room.requiredItems[dir];
        if !AllHeld(required, inventory) {
          if dir in room.deathMessages && room.deathMessages[dir] != "" {
            gameOver := true;
            return room.deathMessages[dir];
          }
          return "You need " + Join(required, " and ") + " to go that way.";
        }
      }
      currentRoom := next;
      return Arrival(rooms[next]);
    }

    method HandleTake(itemName: string) returns (message: string)
      requires Valid()
      modifies this
      ensures Turn(Snapshot(), message) == Take(Setup(), old(Snapshot()), itemName)
    {
      if itemName == "" {
        return config.invalidItemMessage;
      }
      var room := rooms[currentRoom];
      var found := FindNormalized(room.items, Normalize(itemName));
      if found.None? {
        return config.noSuchItemMessage;
      }
      var i := found.value;
      var actual := room.items[i];
      if actual in rules.takeConditions {
        var condition := rules.takeConditions[actual];
        if !CheckCondition(condition, inventory, state) {
          gameOver := condition.value.gameOver;
          return condition.value.failureMessage;
        }
      }
      ghost var s0 := Snapshot();
      assert Take(Setup(), s0, itemName) ==
        Turn(s0.(rooms := rooms[currentRoom := room.(items := room.items[..i] + room.items[i + 1..])],
                 inventory := inventory + [actual]),
             "You take the " + Format(actual) + ".");
      rooms := rooms[currentRoom := room.(items := room.items[..i] + room.items[i + 1..])];
      inventory := inventory + [actual];
      return "You take the " + Format(actual) + ".";
    }

    method HandleUse(itemName: string) returns (message: string)
      requires Valid()
      modifies this
      ensures Turn(Snapshot(), message) == Use(Setup(), old(Snapshot()), itemName)
    {
      if itemName == "" {
        return config.invalidItemMessage;
      }
      var withIndex := IndexOf(itemName, " with ");
      if withIndex.Some? {
        var k := withIndex.value;
        assert Use(Setup(), Snapshot(), itemName) == UseTogether(Setup(), Snapshot(), itemName, k);
        var first := FindNormalized(inventory, Normalize(itemName[..k]));
        var second := FindNormalized(inventory, Normalize(itemName[k + 6..]));
        if first.Some? && inventory[first.value] != "" && second.Some? && inventory[second.value] != "" {
          message := HandleCombination(inventory[first.value], inventory[second.value]);
          return;
        }
        return config.dontHaveItemMessage;
      }
      var key := Normalize(itemName);
      if currentRoom in rules.specialUses && key in rules.specialUses[currentRoom] {
        var action := rules.specialUses[currentRoom][key];
        gameOver := action.gameOver;
        return action.message;
      }
      var found := FindNormalized(inventory, key);
      if found.None? {
        return config.dontHaveItemMessage;
      }
      var actual := inventory[found.value];
      var room := rooms[currentRoom];
      if actual in room.itemUse && room.itemUse[actual] != "" {
        return room.itemUse[actual];
      }
      if actual in rules.stateChangingItems {
        var item := rules.stateChangingItems[actual];
        var now := IsSet(state, item.toggleState);
        state := state[item.toggleState := !now];
        return if !now then item.whenTrue else item.whenFalse;
      }
      return config.cantUseMessage;
    }

    method HandleCombination(item1: string, item2: string) returns (message: string)
      modifies this
      ensures Turn(Snapshot(), message) == Combine(Setup(), old(Snapshot()), item1, item2)
    {
      if puzzles.combinations.None? {
        return "Item combination is not possible.";
      }
      if item1 !in inventory || item2 !in inventory {
        return config.dontHaveItemMessage;
      }
      var combination := Recipe(puzzles.combinations.value, item1, item2);
      if combination.None? {
        return "Those items cannot be combined.";
      }
      if combination.value.removeIngredients {
        inventory := Without(inventory, item1, item2);
      }
      inventory := inventory + [combination.value.result];
      return combination.value.message;
    }

    method HandleAnagramPuzzle(answer: string) returns (message: string)
      requires Valid()
      modifies this
      ensures Turn(Snapshot(), message) == Solve(Setup(), old(Snapshot()), answer)
    {
      if puzzles.anagrams.None? {
        return "There are no anagram puzzles to solve.";
      }
      var anagrams := puzzles.anagrams.value;
      var found := FirstOpen(anagrams, solvedPuzzles, rooms[currentRoom].puzzles);
      if found.None? {
        return "There are no anagram puzzles to solve here.";
      }
      var id, puzzle := anagrams[found.value].0, anagrams[found.value].1;
      if id == "" {
        return "There are no anagram puzzles to solve here.";
      }
      if ToLower(answer) == ToLower(puzzle.solution) {
        solvedPuzzles := solvedPuzzles + [id];
        if puzzle.reward != "" {
          inventory := inventory + [puzzle.reward];
          return "Correct! You've solved the puzzle and received: " + puzzle.reward;
        }
        return "Correct! You've solved the puzzle!";
      }
      return if puzzle.hint != "" then puzzle.hint else "That's not the correct solution.";
    }

    /** `checkWinOrDeath`: two loops, each stopping at the first condition that ends the game. */
    method CheckWinOrDeath(rolls: seq<bool>) returns (shown: seq<string>)
      modifies this
      ensures Round(Snapshot(), shown) == WinOrDeath(Setup(), old(Snapshot()), rolls)
    {
      var wins := rules.winConditions;
      var i := 0;
      while i < |wins|
        invariant 0 <= i <= |wins|
        invariant unchanged(this)
        invariant FirstWin(wins, Snapshot(), 0) == FirstWin(wins, Snapshot(), i)
      {
        if currentRoom == wins[i].room {
          if CheckCondition(wins[i].needs, inventory, state) {
            gameOver := true;
            return [wins[i].message];
          }
        }
        i := i + 1;
      }
      var deaths := rules.deathConditions;
      i := 0;
      while i < |deaths|
        invariant 0 <= i <= |deaths|
        invariant unchanged(this)
        invariant FirstDeath(deaths, Snapshot(), rolls, 0) == FirstDeath(deaths, Snapshot(), rolls, i)
      {
        if currentRoom == deaths[i].room {
          if CheckCondition(deaths[i].when, inventory, state) {
            if Fires(deaths[i].chance, Roll(rolls, i)) {
              gameOver := true;
              return [deaths[i].message];
            }
          }
        }
        i := i + 1;
      }
      return [];
    }
  }
}
