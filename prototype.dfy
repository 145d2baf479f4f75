/**
 * The first prototype of the adventure (game.js): a constant table of ten
 * rooms, a global game state, three commands (go, take, use), and after every
 * command a fixed run of death and win checks. Only the items lying in each
 * room and the game state change as the game is played.
 */
module Prototype {
  import opened Wrappers
  import opened Text
  import AdventureGame

  /** The rooms of the table, one constructor per key (`JungleClearing` for `jungleClearing`, and so on). */
  datatype RoomId =
    | JungleClearing | TempleEntrance | HallOfStatues | TrapRoom | Library
    | AltarRoom | UndergroundTunnel | ChamberOfIdol | TreasureRoom | ExitPath

  /** The text of a room; its exits, which name their targets by room id, are given by `Exits`. */
  datatype Room = Room(description: string, choices: seq<string>)

  /** An entry of the item table. */
  datatype ItemInfo = ItemInfo(description: string, usableIn: seq<RoomId>, usableFor: seq<string>,
                               winCondition: bool, cursed: bool)

  /** Every room id, in the order the table declares them. */
  const RoomIds: seq<RoomId> := [JungleClearing, TempleEntrance, HallOfStatues, TrapRoom, Library,
    AltarRoom, UndergroundTunnel, ChamberOfIdol, TreasureRoom, ExitPath]

  const CantGo: string := "You can\U{2019}t go that way."
  const NoSuchItem: string := "There\U{2019}s no such item here."
  const DontHave: string := "You don\U{2019}t have that item."
  const CantUse: string := "You can\U{2019}t use that here."
  const LightTunnel: string := "You light the tunnel with the torch, revealing the path ahead."
  const NotUnderstood: string :=
    "I don\U{2019}t understand that command. Try 'go [direction]', 'take [item]', or 'use [item]'."
  /** The six win and death checks, in the order they run. */
  datatype Verdict = Trapped | FellInPit | IdolCurse | TreasureCurse | EscapedWithIdol | FoundTreasure

  /** The message each check displays. */
  function Message(v: Verdict): string {
    match v
    case Trapped => "You step on a pressure plate. Spikes shoot from the walls. You\U{2019}re dead!"
    case FellInPit => "You stumble in the dark and fall into a pit. Game over!"
    case IdolCurse => "The idol\U{2019}s curse consumes you as you touch it. You collapse, dead."
    case TreasureCurse => "The cursed treasure drains your life force. You\U{2019}re dead!"
    case EscapedWithIdol => "You escape with the Golden Idol! Congratulations, you win!"
    case FoundTreasure => "Using the map and key, you find a secret exit with untold riches. You win!"
  }

  /** The room table, without its exits. */
  function RoomAt(id: RoomId): Room {
    match id
    case JungleClearing => Room(
      "You stand in a dense jungle clearing. An ancient temple looms ahead.",
      ["Go north to the Temple Entrance", "Take torch"])
    case TempleEntrance => Room(
      "The grand entrance of the temple. Stone carvings depict ancient rituals.",
      ["Go south to Jungle Clearing", "Go north to Hall of Statues"])
    case HallOfStatues => Room(
      "A hall filled with statues of warriors. One holds a map.",
      ["Go south to Temple Entrance", "Go east to Trap Room", "Go west to Altar Room", "Take map"])
    case TrapRoom => Room(
      "This room is filled with deadly traps. Tread carefully.",
      ["Go west to Hall of Statues", "Go north to Library", "Go east to Underground Tunnel", "Cross traps"])
    case Library => Room(
      "An ancient library with dusty scrolls. A key rests on a shelf.",
      ["Go south to Trap Room", "Go east to Treasure Room", "Take key"])
    case AltarRoom => Room(
      "A room with an altar covered in symbols. An amulet glows faintly.",
      ["Go east to Hall of Statues", "Take amulet"])
    case UndergroundTunnel => Room(
      "A dark tunnel leading deeper into the temple.",
      ["Go west to Trap Room", "Go north to Chamber of the Idol"])
    case ChamberOfIdol => Room(
      "The Golden Idol rests on a pedestal, guarded by a shadowy figure.",
      ["Go south to Underground Tunnel", "Go north to Exit Path", "Take golden idol"])
    case TreasureRoom => Room(
      "A room filled with gold and jewels, and a sword in the corner.",
      ["Go west to Library", "Take sword", "Take cursed treasure"])
    case ExitPath => Room(
      "A path leading out of the temple back to the jungle.",
      ["Go south to Chamber of the Idol"])
  }

  /** The exits of each room, in the order the table declares them. */
  function Exits(id: RoomId): seq<(string, RoomId)> {
    match id
    case JungleClearing => [("north", TempleEntrance)]
    case TempleEntrance => [("south", JungleClearing), ("north", HallOfStatues)]
    case HallOfStatues => [("south", TempleEntrance), ("east", TrapRoom), ("west", AltarRoom)]
    case TrapRoom => [("west", HallOfStatues), ("north", Library), ("east", UndergroundTunnel)]
    case Library => [("south", TrapRoom), ("east", TreasureRoom)]
    case AltarRoom => [("east", HallOfStatues)]
    case UndergroundTunnel => [("west", TrapRoom), ("north", ChamberOfIdol)]
    case ChamberOfIdol => [("south", UndergroundTunnel), ("north", ExitPath)]
    case TreasureRoom => [("west", Library)]
    case ExitPath => [("south", ChamberOfIdol)]
  }

  /** The items lying in each room when the page loads. */
  function InitialItems(id: RoomId): seq<string> {
    match id
    case JungleClearing => ["torch"]
    case HallOfStatues => ["map"]
    case Library => ["key"]
    case AltarRoom => ["amulet"]
    case ChamberOfIdol => ["goldenIdol"]
    case TreasureRoom => ["sword", "cursedTreasure"]
    case _ => []
  }

  /** The item table; every item placed in a room has an entry. */
  function Items(): (t: map<string, ItemInfo>)
    ensures forall r: RoomId, i :: 0 <= i < |InitialItems(r)| ==> InitialItems(r)[i] in t
  {
    map[
      "torch" := ItemInfo("A torch to light dark areas.", [UndergroundTunnel], [], false, false),
      "key" := ItemInfo("A key to unlock doors.", [], [], false, false),
      "amulet" := ItemInfo("Protects against curses.", [], ["goldenIdol", "cursedTreasure"], false, false),
      "sword" := ItemInfo("A sharp sword for defense.", [], [], false, false),
      "map" := ItemInfo("A map of the temple.", [], [], false, false),
      "goldenIdol" := ItemInfo("The priceless Golden Idol.", [], [], true, false),
      "cursedTreasure" := ItemInfo("Treasure that brings misfortune.", [], [], false, true)
    ]
  }

  /** `Array.prototype.indexOf`: the first index holding `x`, if any. */
  function FirstIndex(xs: seq<string>, x: string): (r: Option<nat>)
    ensures r.Some? ==> r.value < |xs| && xs[r.value] == x && x !in xs[..r.value]
    ensures r.None? ==> x !in xs
  {
    if xs == [] then None
    else if xs[0] == x then Some(0)
    else
      match FirstIndex(xs[1..], x)
      case None => None
      case Some(k) =>
        assert xs[..k + 1] == [xs[0]] + xs[1..][..k];
        Some(k + 1)
  }

  /** The object of a command, as `processCommand` cuts it from the lower-cased input, holds no capital. */
  lemma ObjectHasNoCapitals(raw: string)
    ensures NoCapitals(Argument(ToLower(Trim(raw))))
  {
    var input := ToLower(Trim(raw));
    VerbArgument(input);
    if ' ' in input {
      var a, off := Argument(input), |Verb(input)| + 1;
      forall k | 0 <= k < |a|
        ensures !IsUpper(a[k])
      {
        assert a[k] == input[off + k];
      }
    }
  }

  /**
   * As written, `take` looks the lower-cased object up with an exact `indexOf`, so it
   * never finds an item whose name has a capital letter.
   */
  lemma ExactTakeMissesCapitals(raw: string, xs: seq<string>, i: nat, k: nat)
    requires i < |xs| && k < |xs[i]| && IsUpper(xs[i][k])
    ensures FirstIndex(xs, Argument(ToLower(Trim(raw)))) != Some(i)
  {
    ObjectHasNoCapitals(raw);
  }

  /**
   * Hence, as written, no command finds the golden idol or the cursed treasure in
   * the room they start in (`IdolCurseEscapeNeverFire` carries this over whole runs).
   */
  lemma IdolAndTreasureUntakeable(raw: string)
    ensures var arg := Argument(ToLower(Trim(raw)));
      && FirstIndex(InitialItems(ChamberOfIdol), arg).None?
      && FirstIndex(InitialItems(TreasureRoom), arg) != Some(1)
  {
    ExactTakeMissesCapitals(raw, InitialItems(ChamberOfIdol), 0, 6);
    ExactTakeMissesCapitals(raw, InitialItems(TreasureRoom), 1, 6);
  }

  /**
   * With the lookup `take` evidently means, the one the engine's `normalizeItemName`
   * later supplies (case and white space ignored), `take` followed by any name that
   * matches an item lying in the room finds that item or an earlier one of the same
   * name: "take golden idol", as the room's choices put it, finds `goldenIdol`.
   */
  lemma TakeCommandFinds(xs: seq<string>, i: nat, name: string)
    requires i < |xs| && AdventureGame.Normalize(name) == AdventureGame.Normalize(xs[i])
    requires name != [] && !IsWhitespace(name[|name| - 1])
    ensures var input := ToLower(Trim("take" + " " + name));
      && Verb(input) == "take"
      && var r := AdventureGame.FindNormalized(xs, AdventureGame.Normalize(Argument(input)));
         r.Some? && r.value <= i && AdventureGame.Normalize(xs[r.value]) == AdventureGame.Normalize(name)
  {
    TakeCommand(name);
    ToLowerTwice(name);
  }

  /** `take` followed by a name reads as the verb `take` and the lower-cased name. */
  lemma TakeCommand(name: string)
    requires name != [] && !IsWhitespace(name[|name| - 1])
    ensures var input := ToLower(Trim("take" + " " + name));
      Verb(input) == "take" && Argument(input) == ToLower(name)
  {
    TakeVerb();
    CommandParts("take", name);
  }

  /** `take` is a lower-case word starting with a letter. */
  lemma TakeVerb()
    ensures NoCapitals("take") && ' ' !in "take" && !IsWhitespace("take"[0])
  {
  }

  /** What moving into a room displays. */
  function Describe(room: Room): string {
    room.description + "<br>Choices: " + Join(room.choices, ", ")
  }

  /** All items lying in the rooms `ids`, counted with multiplicity. */
  ghost function ItemsIn(ids: seq<RoomId>, items: map<RoomId, seq<string>>): multiset<string> {
    if ids == [] then multiset{}
    else (if ids[0] in items then multiset(items[ids[0]]) else multiset{}) + ItemsIn(ids[1..], items)
  }

  /** All items lying in the rooms. */
  ghost function AllItems(items: map<RoomId, seq<string>>): multiset<string> {
    ItemsIn(RoomIds, items)
  }

  lemma {:induction false} ItemsInOther(ids: seq<RoomId>, items: map<RoomId, seq<string>>, r: RoomId, s: seq<string>)
    requires r !in ids
    ensures ItemsIn(ids, items[r := s]) == ItemsIn(ids, items)
  {
    if ids != [] {
      ItemsInOther(ids[1..], items, r, s);
    }
  }

  /** Replacing the items of one listed room changes the total by exactly the difference. */
  lemma {:induction false} ItemsInUpdate(ids: seq<RoomId>, items: map<RoomId, seq<string>>, r: RoomId, s: seq<string>)
    requires r in items && r in ids
    requires forall i, j :: 0 <= i < j < |ids| ==> ids[i] != ids[j]
    ensures ItemsIn(ids, items[r := s]) + multiset(items[r]) == ItemsIn(ids, items) + multiset(s)
  {
    if ids[0] == r {
      assert r !in ids[1..] by {
        forall j | 1 <= j < |ids| ensures ids[j] != r {
          assert ids[0] != ids[j];
        }
      }
      ItemsInOther(ids[1..], items, r, s);
    } else {
      var head := if ids[0] in items then multiset(items[ids[0]]) else multiset{};
      assert ItemsIn(ids, items) == head + ItemsIn(ids[1..], items);
      assert ItemsIn(ids, items[r := s]) == head + ItemsIn(ids[1..], items[r := s]);
      ItemsInUpdate(ids[1..], items, r, s);
      calc {
        ItemsIn(ids, items[r := s]) + multiset(items[r]);
        head + (ItemsIn(ids[1..], items[r := s]) + multiset(items[r]));
        head + (ItemsIn(ids[1..], items) + multiset(s));
        ItemsIn(ids, items) + multiset(s);
      }
    }
  }

  /** Moving the `i`-th item of room `r` to the end of the inventory keeps every item. */
  lemma TakeConserves(ids: seq<RoomId>, items: map<RoomId, seq<string>>, r: RoomId, i: nat, inventory: seq<string>)
    requires r in items && r in ids && i < |items[r]|
    requires forall i, j :: 0 <= i < j < |ids| ==> ids[i] != ids[j]
    ensures var here := items[r];
      ItemsIn(ids, items[r := here[..i] + here[i + 1..]]) + multiset(inventory + [here[i]])
      == ItemsIn(ids, items) + multiset(inventory)
  {
    var here := items[r];
    var rest := here[..i] + here[i + 1..];
    assert here == here[..i] + [here[i]] + here[i + 1..];
    assert multiset(here) == multiset(rest) + multiset{here[i]};
    ItemsInUpdate(ids, items, r, rest);
    var after, before := ItemsIn(ids, items[r := rest]), ItemsIn(ids, items);
    assert after + multiset(rest) + multiset{here[i]} == before + multiset(rest);
    assert after + multiset{here[i]} == before by {
      forall e ensures (after + multiset{here[i]})[e] == before[e] {
        assert (after + multiset(rest) + multiset{here[i]})[e] == (before + multiset(rest))[e];
      }
    }
    assert multiset(inventory + [here[i]]) == multiset(inventory) + multiset{here[i]};
  }

  /**
   * What the checks look at: the current room, which of the items they test are
   * held, whether the command field reads "cross traps" once lower-cased, and
   * whether `Math.random() < 0.5` came out true.
   */
  datatype Situation = Situation(room: RoomId, hasTorch: bool, hasIdol: bool, hasAmulet: bool,
                                 hasTreasure: bool, hasMap: bool, hasKey: bool, crossTraps: bool, roll: bool)

  function Observe(room: RoomId, inventory: seq<string>, typed: string, roll: bool): Situation {
    Situation(room, "torch" in inventory, "goldenIdol" in inventory, "amulet" in inventory,
              "cursedTreasure" in inventory, "map" in inventory, "key" in inventory,
              ToLower(typed) == "cross traps", roll)
  }

  /** The checks `vs` fired so far, followed by the check `v` when its condition `c` holds. */
  function Then(vs: seq<Verdict>, c: bool, v: Verdict): (r: seq<Verdict>)
    ensures forall w :: w in r <==> w in vs || (c && w == v)
  {
    if c then vs + [v] else vs
  }

  /** The checks that fire, in the order they run. */
  function Verdicts(o: Situation): seq<Verdict> {
    var vs := Then([], o.room == TrapRoom && o.crossTraps, Trapped);
    var vs := Then(vs, o.room == UndergroundTunnel && !o.hasTorch && o.roll, FellInPit);
    var vs := Then(vs, o.hasIdol && !o.hasAmulet, IdolCurse);
    var vs := Then(vs, o.hasTreasure && !o.hasAmulet, TreasureCurse);
    var vs := Then(vs, o.room == ExitPath && o.hasIdol && o.hasAmulet, EscapedWithIdol);
    Then(vs, o.room == TreasureRoom && o.hasMap && o.hasKey, FoundTreasure)
  }

  /** The messages of the checks `vs`, in order. */
  function Messages(vs: seq<Verdict>): (ms: seq<string>)
    ensures |ms| == |vs|
    ensures forall i :: 0 <= i < |vs| ==> ms[i] == Message(vs[i])
  {
    if vs == [] then [] else [Message(vs[0])] + Messages(vs[1..])
  }

  /** Each death check fires exactly when its condition holds. */
  lemma VerdictsDeaths(o: Situation)
    ensures var vs := Verdicts(o);
      && (Trapped in vs <==> o.room == TrapRoom && o.crossTraps)
      && (FellInPit in vs <==> o.room == UndergroundTunnel && !o.hasTorch && o.roll)
      && (IdolCurse in vs <==> o.hasIdol && !o.hasAmulet)
      && (TreasureCurse in vs <==> o.hasTreasure && !o.hasAmulet)
  {
  }

  /** Each win check fires exactly when its condition holds. */
  lemma VerdictsWins(o: Situation)
    ensures var vs := Verdicts(o);
      && (EscapedWithIdol in vs <==> o.room == ExitPath && o.hasIdol && o.hasAmulet)
      && (FoundTreasure in vs <==> o.room == TreasureRoom && o.hasMap && o.hasKey)
  {
  }

  /**
   * The checks end the game exactly when one of the six conditions holds; in
   * particular a cursed item held without the amulet always ends it, and so do
   * both winning combinations.
   */
  lemma EndsGame(room: RoomId, inventory: seq<string>, typed: string, roll: bool)
    ensures Verdicts(Observe(room, inventory, typed, roll)) != [] <==>
      || (room == TrapRoom && ToLower(typed) == "cross traps")
      || (room == UndergroundTunnel && "torch" !in inventory && roll)
      || (("goldenIdol" in inventory || "cursedTreasure" in inventory) && "amulet" !in inventory)
      || (room == ExitPath && "goldenIdol" in inventory && "amulet" in inventory)
      || (room == TreasureRoom && "map" in inventory && "key" in inventory)
  {
    var o := Observe(room, inventory, typed, roll);
    var vs := Verdicts(o);
    VerdictsDeaths(o);
    VerdictsWins(o);
    if vs != [] {
      assert vs[0] in vs;
    }
  }

  /** The command field is cleared before the checks read it, so the trap-room check never fires. */
  lemma TrapNeverSprung(room: RoomId, inventory: seq<string>, roll: bool)
    ensures Trapped !in Verdicts(Observe(room, inventory, "", roll))
  {
    var o := Observe(room, inventory, "", roll);
    assert ToLower("") == "";
    assert !o.crossTraps;
    VerdictsDeaths(o);
  }

  /** The position of a room in `RoomIds`. */
  function Ordinal(id: RoomId): nat {
    match id
    case JungleClearing => 0 case TempleEntrance => 1 case HallOfStatues => 2 case TrapRoom => 3
    case Library => 4 case AltarRoom => 5 case UndergroundTunnel => 6 case ChamberOfIdol => 7
    case TreasureRoom => 8 case ExitPath => 9
  }

  /** `RoomIds` lists the rooms in the order of `Ordinal`, so each once. */
  lemma RoomIdsDistinct()
    ensures forall i, j :: 0 <= i < j < |RoomIds| ==> RoomIds[i] != RoomIds[j]
  {
    forall i | 0 <= i < |RoomIds| ensures Ordinal(RoomIds[i]) == i {
      if i < 5 {
        if i == 0 {} else if i == 1 {} else if i == 2 {} else if i == 3 {} else {}
      } else {
        if i == 5 {} else if i == 6 {} else if i == 7 {} else if i == 8 {} else {}
      }
    }
  }

  /** `RoomIds` lists every room, at its ordinal. */
  lemma RoomIdsCover()
    ensures forall id: RoomId :: id in RoomIds
  {
    forall id: RoomId ensures id in RoomIds {
      AtOrdinal(id);
    }
  }

  lemma AtOrdinal(id: RoomId)
    ensures Ordinal(id) < |RoomIds| && RoomIds[Ordinal(id)] == id
  {
  }

  lemma AllRoomIds()
    ensures forall id: RoomId :: id in RoomIds
    ensures forall i, j :: 0 <= i < j < |RoomIds| ==> RoomIds[i] != RoomIds[j]
  {
    RoomIdsCover();
    RoomIdsDistinct();
  }

  /** What `go direction` does from room `from`: the room it ends in and the response. */
  function Go(from: RoomId, direction: string): (RoomId, string) {
    var exits := Exits(from);
    match FirstKeyIncluded(exits, direction)
    case None => (from, CantGo)
    case Some(i) => (exits[i].1, Describe(RoomAt(exits[i].1)))
  }

  /** No exit of the table leads back into the room it leaves. */
  lemma NoExitLoops(from: RoomId)
    ensures forall i :: 0 <= i < |Exits(from)| ==> Exits(from)[i].1 != from
  {
  }


  /**
   * `go` moves the player exactly when the direction contains the name of one of
   * the room's exits; it then displays the room it moved to.
   */
  lemma GoMoves(from: RoomId, direction: string)
    ensures var exits, (to, response) := Exits(from), Go(from, direction);
      && (to != from <==> exists j :: 0 <= j < |exits| && Includes(direction, exits[j].0))
      && (to != from ==> response == Describe(RoomAt(to)))
      && (to == from ==> response == CantGo)
  {
    var exits := Exits(from);
    NoExitLoops(from);
    match FirstKeyIncluded(exits, direction)
    case None =>
      assert Go(from, direction) == (from, CantGo);
    case Some(i) =>
      assert Go(from, direction) == (exits[i].1, Describe(RoomAt(exits[i].1)));
      assert Includes(direction, exits[i].0);
  }

  /** What a successful `take` answers. */
  function Took(itemName: string): string {
    "You take the " + itemName + "."
  }

  /**
   * What `take itemName` does to a room holding `here` and to the inventory: the
   * first item matching the name, ignoring case and white space, moves over under
   * its own name.
   */
  function TakeFrom(here: seq<string>, inventory: seq<string>, itemName: string): (seq<string>, seq<string>, string) {
    match AdventureGame.FindNormalized(here, AdventureGame.Normalize(itemName))
    case None => (here, inventory, NoSuchItem)
    case Some(i) => (here[..i] + here[i + 1..], inventory + [here[i]], Took(itemName))
  }

  /** A take from room `r` loses and creates no item: what the room gives up the inventory gains. */
  lemma TakeFromConserves(items: map<RoomId, seq<string>>, r: RoomId, inventory: seq<string>, itemName: string)
    requires r in items
    ensures var t := TakeFrom(items[r], inventory, itemName);
      AllItems(items[r := t.0]) + multiset(t.1) == AllItems(items) + multiset(inventory)
  {
    var here := items[r];
    match AdventureGame.FindNormalized(here, AdventureGame.Normalize(itemName))
    case None =>
      assert TakeFrom(here, inventory, itemName) == (here, inventory, NoSuchItem);
      assert items[r := here] == items;
    case Some(i) =>
      assert TakeFrom(here, inventory, itemName) == (here[..i] + here[i + 1..], inventory + [here[i]], Took(itemName));
      AllRoomIds();
      TakeConserves(RoomIds, items, r, i, inventory);
  }

  /** What `use itemName` answers; only the torch, held and used in the tunnel, does anything. */
  function UseReply(inventory: seq<string>, room: RoomId, itemName: string): (r: string)
    ensures itemName !in inventory ==> r == DontHave
    ensures r == LightTunnel <==> itemName in inventory && itemName == "torch" && room == UndergroundTunnel
    ensures itemName in inventory && r != LightTunnel ==> r == CantUse
  {
    if itemName !in inventory then DontHave
    else if itemName == "torch" && room == UndergroundTunnel then LightTunnel
    else CantUse
  }

  /**
   * `take itemName` as written: an exact `indexOf` in the room's items, then `splice`
   * of the item found and `push` of `itemName` itself.
   */
  function TakeExact(here: seq<string>, inventory: seq<string>, itemName: string): (seq<string>, seq<string>, string) {
    match FirstIndex(here, itemName)
    case None => (here, inventory, NoSuchItem)
    case Some(i) => (here[..i] + here[i + 1..], inventory + [itemName], Took(itemName))
  }

  /**
   * As written, `take` finds an item only under its exact name: present, its first
   * occurrence leaves the room and the name is appended to the inventory; absent,
   * nothing changes. Either way no item is lost or created.
   */
  lemma TakeExactOutcome(here: seq<string>, inventory: seq<string>, itemName: string)
    ensures var (h, carried, r) := TakeExact(here, inventory, itemName);
      && (itemName !in here ==> h == here && carried == inventory && r == NoSuchItem)
      && (itemName in here ==>
            (exists i :: 0 <= i < |here| && here[i] == itemName && itemName !in here[..i] && h == here[..i] + here[i + 1..])
            && carried == inventory + [itemName] && r == Took(itemName))
      && multiset(h) + multiset(carried) == multiset(here) + multiset(inventory)
  {
    match FirstIndex(here, itemName)
    case None =>
    case Some(i) =>
      assert here == here[..i] + [here[i]] + here[i + 1..];
      assert multiset(here) == multiset(here[..i] + here[i + 1..]) + multiset{itemName};
      assert multiset(inventory + [itemName]) == multiset(inventory) + multiset{itemName};
  }

  /** The part of the prototype's state a command changes, as one value. */
  datatype Play = Play(room: RoomId, items: map<RoomId, seq<string>>, inventory: seq<string>, over: bool)

  /** The state `gameState` and the room table start in. */
  function Start(): Play {
    Play(JungleClearing, map id | id in RoomIds :: InitialItems(id), [], false)
  }

  /**
   * One command as written, with the exact `take`: a finished game ignores it;
   * otherwise the command is dispatched and the checks, which see the command field
   * already cleared, end the game when one of them fires.
   */
  function ExactCommand(p: Play, raw: string, roll: bool): Play {
    if p.over then p
    else
      var input := ToLower(Trim(raw));
      var verb, arg := Verb(input), Argument(input);
      var q :=
        if verb == "go" then p.(room := Go(p.room, arg).0)
        else if verb == "take" && p.room in p.items then
          var (here, carried, _) := TakeExact(p.items[p.room], p.inventory, arg);
          p.(items := p.items[p.room := here], inventory := carried)
        else p;
      q.(over := Verdicts(Observe(q.room, q.inventory, "", roll)) != [])
  }

  /** A run of commands, each with the draw of `Math.random()` its checks see. */
  function ExactRun(p: Play, commands: seq<(string, bool)>): Play
    decreases |commands|
  {
    if commands == [] then p
    else ExactRun(ExactCommand(p, commands[0].0, commands[0].1), commands[1..])
  }

  /** Every name carried holds no capital. */
  predicate CarriesLowercase(p: Play) {
    forall k :: 0 <= k < |p.inventory| ==> NoCapitals(p.inventory[k])
  }

  /** As written, a command only ever adds a lower-cased object to the inventory. */
  lemma ExactCommandLowercase(p: Play, raw: string, roll: bool)
    requires CarriesLowercase(p)
    ensures CarriesLowercase(ExactCommand(p, raw, roll))
  {
    ObjectHasNoCapitals(raw);
    var arg := Argument(ToLower(Trim(raw)));
    if p.room in p.items {
      TakeExactOutcome(p.items[p.room], p.inventory, arg);
    }
  }

  lemma {:induction false} ExactRunLowercase(p: Play, commands: seq<(string, bool)>)
    requires CarriesLowercase(p)
    ensures CarriesLowercase(ExactRun(p, commands))
    decreases |commands|
  {
    if commands != [] {
      ExactCommandLowercase(p, commands[0].0, commands[0].1);
      ExactRunLowercase(ExactCommand(p, commands[0].0, commands[0].1), commands[1..]);
    }
  }

  /**
   * As written, no run of commands from the start ever puts the golden idol or the
   * cursed treasure in the inventory, so the idol's curse, the treasure's curse and the
   * escape with the idol never fire, whatever the room, the command field and the draw.
   */
  lemma IdolCurseEscapeNeverFire(commands: seq<(string, bool)>, typed: string, roll: bool)
    ensures var p := ExactRun(Start(), commands);
      && "goldenIdol" !in p.inventory && "cursedTreasure" !in p.inventory
      && var vs := Verdicts(Observe(p.room, p.inventory, typed, roll));
         IdolCurse !in vs && TreasureCurse !in vs && EscapedWithIdol !in vs
  {
    var p := ExactRun(Start(), commands);
    ExactRunLowercase(Start(), commands);
    LowercaseLacksCursed(p.inventory);
    var o := Observe(p.room, p.inventory, typed, roll);
    assert !o.hasIdol && !o.hasTreasure;
    VerdictsDeaths(o);
    VerdictsWins(o);
  }

  /** Names without capitals are neither `goldenIdol` nor `cursedTreasure`. */
  lemma LowercaseLacksCursed(inventory: seq<string>)
    requires forall k :: 0 <= k < |inventory| ==> NoCapitals(inventory[k])
    ensures "goldenIdol" !in inventory && "cursedTreasure" !in inventory
  {
    assert IsUpper("goldenIdol"[6]) && IsUpper("cursedTreasure"[6]);
    forall k | 0 <= k < |inventory|
      ensures inventory[k] != "goldenIdol" && inventory[k] != "cursedTreasure"
    {
      assert NoCapitals(inventory[k]);
    }
  }

  class Game {
    var currentRoom: RoomId
    var inventory: seq<string>
    var gameOver: bool
    /** The `items` array of each room, the only part of the room table that changes. */
    var items: map<RoomId, seq<string>>

    /** Every room keeps its `items` array; the current one in particular. */
    ghost predicate Valid()
      reads this
    {
      (forall id: RoomId :: id in items) && currentRoom in items
    }

    /** Every item in the game, in the rooms or carried, counted with multiplicity. */
    ghost function Total(): multiset<string>
      reads this
    {
      AllItems(items) + multiset(inventory)
    }

    /** The state `gameState` and the room table start in. */
    constructor ()
      ensures Valid()
      ensures currentRoom == JungleClearing && inventory == [] && !gameOver && items == map id | id in RoomIds :: InitialItems(id)
    {
      AllRoomIds();
      currentRoom := JungleClearing;
      inventory := [];
      gameOver := false;
      items := map id | id in RoomIds :: InitialItems(id);
    }

    /**
     * One command. A finished game ignores it; otherwise the trimmed, lower-cased
     * command is split into verb and object, dispatched, and followed by the win and
     * death checks, which see the command field already cleared.
     */
    method ProcessCommand(raw: string, roll: bool) returns (shown: seq<string>)
      requires Valid()
      modifies this
      ensures Valid()
      ensures old(gameOver) ==> shown == [] && unchanged(this)
      ensures old(gameOver) ==> gameOver
      ensures !old(gameOver) ==> |shown| >= 1 && gameOver == (|shown| > 1)
      ensures !old(gameOver) ==> shown[1..] == Messages(Verdicts(Observe(currentRoom, inventory, "", roll)))
      ensures Total() == old(Total())
      ensures var verb := Verb(ToLower(Trim(raw)));
              && (verb != "go" ==> currentRoom == old(currentRoom))
              && (verb != "take" ==> items == old(items) && inventory == old(inventory))
              && (verb !in ["go", "take", "use"] && !old(gameOver) ==> shown[0] == NotUnderstood)
      ensures var input := ToLower(Trim(raw));
              !old(gameOver) && Verb(input) == "go" ==>
                (currentRoom, shown[0]) == Go(old(currentRoom), Argument(input))
      ensures var input := ToLower(Trim(raw));
              !old(gameOver) && Verb(input) == "take" ==>
                var (here, carried, response) := TakeFrom(old(items)[old(currentRoom)], old(inventory), Argument(input));
                items == old(items)[old(currentRoom) := here] && inventory == carried && shown[0] == response
      ensures var input := ToLower(Trim(raw));
              !old(gameOver) && Verb(input) == "use" ==>
                shown[0] == UseReply(old(inventory), old(currentRoom), Argument(input))
    {
      if gameOver {
        return [];
      }
      var input := ToLower(Trim(raw));
      var verb := Verb(input);
      var argument := Argument(input);
      var response;
      if verb == "go" {
        response := HandleMovement(argument);
      } else if verb == "take" {
        response := HandleTake(argument);
      } else if verb == "use" {
        response := HandleUse(argument);
      } else {
        response := NotUnderstood;
      }
      assert !gameOver;
      var fired := CheckWinOrDeath("", roll);
      shown := [response] + Messages(fired);
    }

    /** `go`: follows the first exit, in table order, whose name occurs in `direction`. */
    method HandleMovement(direction: string) returns (response: string)
      requires Valid()
      modifies this
      ensures Valid()
      ensures inventory == old(inventory) && items == old(items) && gameOver == old(gameOver)
      ensures (currentRoom, response) == Go(old(currentRoom), direction)
    {
      var exits := Exits(currentRoom);
      var found := FindKeyIncluded(exits, direction);
      if found.Some? {
        currentRoom := exits[found.value].1;
        return Describe(RoomAt(currentRoom));
      }
      return CantGo;
    }

    /**
     * `take`: moves the first item whose name matches `itemName`, ignoring case and
     * white space, from the room to the inventory, under its own name. The exact
     * `indexOf` the source uses, `TakeExact`, can never match a name with a capital
     * (`ExactTakeMissesCapitals`).
     */
    method HandleTake(itemName: string) returns (response: string)
      requires Valid()
      modifies this
      ensures Valid()
      ensures currentRoom == old(currentRoom) && gameOver == old(gameOver)
      ensures Total() == old(Total())
      ensures var t := TakeFrom(old(items)[currentRoom], old(inventory), itemName);
              items == old(items)[currentRoom := t.0] && inventory == t.1 && response == t.2
    {
      var here := items[currentRoom];
      var found := AdventureGame.FindNormalized(here, AdventureGame.Normalize(itemName));
      if found.Some? {
        var i := found.value;
        assert TakeFrom(here, inventory, itemName) == (here[..i] + here[i + 1..], inventory + [here[i]], Took(itemName));
        items := items[currentRoom := here[..i] + here[i + 1..]];
        inventory := inventory + [here[i]];
        response := Took(itemName);
        assert items.Keys == old(items).Keys;
      } else {
        assert items == items[currentRoom := here];
        response := NoSuchItem;
      }
      assert Total() == old(Total()) by {
        TakeFromConserves(old(items), currentRoom, old(inventory), itemName);
      }
    }

    /** `use`: changes nothing. */
    method HandleUse(itemName: string) returns (response: string)
      ensures response == UseReply(inventory, currentRoom, itemName)
    {
      if itemName !in inventory {
        return DontHave;
      }
      if itemName == "torch" && currentRoom == UndergroundTunnel {
        return LightTunnel;
      }
      return CantUse;
    }

    /**
     * The win and death checks, in order; `typed` is what the command field holds
     * at that moment. Returns the checks that fired, whose messages are displayed
     * in that order. Each check that fires ends the game; no check reads the
     * game-over flag, so it is set once, after all of them.
     */
    method CheckWinOrDeath(typed: string, roll: bool) returns (fired: seq<Verdict>)
      modifies this
      ensures currentRoom == old(currentRoom) && inventory == old(inventory) && items == old(items)
      ensures fired == Verdicts(Observe(currentRoom, inventory, typed, roll))
      ensures gameOver == (old(gameOver) || fired != [])
    {
      ghost var o := Observe(currentRoom, inventory, typed, roll);
      fired := [];
      if currentRoom == TrapRoom && ToLower(typed) == "cross traps" {
        fired := fired + [Trapped];
      }
      assert fired == Then([], o.room == TrapRoom && o.crossTraps, Trapped);
      ghost var upTo := fired;
      if currentRoom == UndergroundTunnel && "torch" !in inventory {
        if roll {
          fired := fired + [FellInPit];
        }
      }
      assert fired == Then(upTo, o.room == UndergroundTunnel && !o.hasTorch && o.roll, FellInPit);
      upTo := fired;
      if "goldenIdol" in inventory && "amulet" !in inventory {
        fired := fired + [IdolCurse];
      }
      assert fired == Then(upTo, o.hasIdol && !o.hasAmulet, IdolCurse);
      upTo := fired;
      if "cursedTreasure" in inventory && "amulet" !in inventory {
        fired := fired + [TreasureCurse];
      }
      assert fired == Then(upTo, o.hasTreasure && !o.hasAmulet, TreasureCurse);
      upTo := fired;
      if currentRoom == ExitPath && "goldenIdol" in inventory && "amulet" in inventory {
        fired := fired + [EscapedWithIdol];
      }
      assert fired == Then(upTo, o.room == ExitPath && o.hasIdol && o.hasAmulet, EscapedWithIdol);
      upTo := fired;
      if currentRoom == TreasureRoom && "map" in inventory && "key" in inventory {
        fired := fired + [FoundTreasure];
      }
      assert fired == Then(upTo, o.room == TreasureRoom && o.hasMap && o.hasKey, FoundTreasure);
      assert fired == Verdicts(o);
      assert o == Observe(currentRoom, inventory, typed, roll);
      if fired != [] {
        gameOver := true;
      }
    }
  }
}
