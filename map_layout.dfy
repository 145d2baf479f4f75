/**
 * The mini-map layout (class ForceDirectedLayout of js/map-layout.js).
 * Despite its name it runs no force simulation: it walks the room graph
 * depth-first from the fixed start room over the north, south, east and
 * west exits, records for every room it reaches a signed pair of offsets,
 * and maps each pair linearly into percentage coordinates.
 */
module MapLayout {
  import opened Wrappers

  /** A room as the layout sees it: its exits by direction name, if it has any. */
  datatype Room = Room(exits: Option<map<string, string>>)

  type Rooms = map<string, Room>

  /** The four directions the walks follow, in the order they follow them. */
  datatype Dir = North | South | East | West

  /** What `depths` holds per room: a scalar depth (first walk) or a pair of offsets (second walk). */
  datatype Depth = Scalar(depth: int) | Offsets(north: int, east: int)

  /** A percentage coordinate pair. */
  datatype Position = Position(x: real, y: real)

  /** The room both walks start from. */
  const Start: string := "jungleClearing"

  function DirName(d: Dir): string {
    match d
    case North => "north"
    case South => "south"
    case East => "east"
    case West => "west"
  }

  /**
   * The exit a walk follows from `id` in direction `d`: `id` must be a known room
   * that has exits, and the exit must hold a truthy (non-empty) room id.
   */
  function Exit(rooms: Rooms, id: string, d: Dir): Option<string> {
    if id in rooms && rooms[id].exits.Some? && DirName(d) in rooms[id].exits.value
       && rooms[id].exits.value[DirName(d)] != ""
    then Some(rooms[id].exits.value[DirName(d)])
    else None
  }

  function ExitSet(o: Option<string>): set<string> {
    match o
    case Some(t) => {t}
    case None => {}
  }

  /** The rooms one compass step away from `id`. */
  function Children(rooms: Rooms, id: string): (c: set<string>)
    ensures forall t :: t in c <==> exists d :: Exit(rooms, id, d) == Some(t)
    ensures id !in rooms || rooms[id].exits.None? ==> c == {}
  {
    ExitSet(Exit(rooms, id, North)) + ExitSet(Exit(rooms, id, South))
    + ExitSet(Exit(rooms, id, East)) + ExitSet(Exit(rooms, id, West))
  }

  /** Exit names other than the four compass names play no part in the walks. */
  lemma OtherExitsIgnored(rooms: Rooms, id: string, name: string, target: string)
    requires id in rooms && rooms[id].exits.Some?
    requires name !in {"north", "south", "east", "west"}
    ensures var changed := rooms[id := Room(Some(rooms[id].exits.value[name := target]))];
            forall r :: Children(changed, r) == Children(rooms, r)
  {
    var changed := rooms[id := Room(Some(rooms[id].exits.value[name := target]))];
    forall r, d: Dir ensures Exit(changed, r, d) == Exit(rooms, r, d) {
      assert DirName(d) != name;
    }
  }

  /** Every id that appears as a followed exit of one of the rooms `ids`. */
  ghost function TargetsOf(rooms: Rooms, ids: set<string>): set<string>
    decreases ids
  {
    if ids == {} then {}
    else
      var id :| id in ids;
      Children(rooms, id) + TargetsOf(rooms, ids - {id})
  }

  /** Every id that appears as a followed exit of some room: what bounds the walks. */
  ghost function Targets(rooms: Rooms): set<string> {
    TargetsOf(rooms, rooms.Keys)
  }

  lemma {:induction false} ChildrenInTargetsOf(rooms: Rooms, ids: set<string>, id: string)
    requires id in ids
    ensures Children(rooms, id) <= TargetsOf(rooms, ids)
    decreases ids
  {
    var k :| k in ids && TargetsOf(rooms, ids) == Children(rooms, k) + TargetsOf(rooms, ids - {k});
    if k != id {
      ChildrenInTargetsOf(rooms, ids - {k}, id);
    }
  }

  lemma ChildInTargets(rooms: Rooms, id: string, t: string)
    requires t in Children(rooms, id)
    ensures t in Targets(rooms)
  {
    ChildrenInTargetsOf(rooms, rooms.Keys, id);
  }

  /** A walk along followed exits. */
  ghost predicate IsPath(rooms: Rooms, p: seq<string>) {
    |p| > 0 && forall i :: 0 <= i < |p| - 1 ==> p[i + 1] in Children(rooms, p[i])
  }

  ghost predicate Reachable(rooms: Rooms, from: string, to: string) {
    exists p :: IsPath(rooms, p) && p[0] == from && p[|p| - 1] == to
  }

  /** No followed exit leads out of `s`. */
  ghost predicate Closed(rooms: Rooms, s: set<string>) {
    forall x :: x in s ==> Children(rooms, x) <= s
  }

  lemma ReachableSelf(rooms: Rooms, x: string)
    ensures Reachable(rooms, x, x)
  {
    assert IsPath(rooms, [x]);
  }

  lemma ReachableStep(rooms: Rooms, r: string, t: string, x: string)
    requires t in Children(rooms, r) && Reachable(rooms, t, x)
    ensures Reachable(rooms, r, x)
  {
    var p :| IsPath(rooms, p) && p[0] == t && p[|p| - 1] == x;
    var q := [r] + p;
    assert forall i :: 1 <= i < |q| - 1 ==> q[i + 1] == p[i] && q[i] == p[i - 1];
    assert IsPath(rooms, q);
  }

  lemma {:induction false} PathStaysIn(rooms: Rooms, s: set<string>, p: seq<string>)
    requires Closed(rooms, s) && IsPath(rooms, p) && p[0] in s
    ensures p[|p| - 1] in s
  {
    if |p| > 1 {
      assert p[1] in Children(rooms, p[0]);
      var q := p[1..];
      assert forall i :: 0 <= i < |q| ==> q[i] == p[i + 1];
      assert IsPath(rooms, q);
      PathStaysIn(rooms, s, p[1..]);
    }
  }

  /** A closed set that holds the start of a walk holds every room the walk reaches. */
  lemma ClosedHoldsReachable(rooms: Rooms, s: set<string>, from: string, to: string)
    requires Closed(rooms, s) && from in s && Reachable(rooms, from, to)
    ensures to in s
  {
    var p :| IsPath(rooms, p) && p[0] == from && p[|p| - 1] == to;
    PathStaysIn(rooms, s, p);
  }

  /** The depth recorded for a room first reached from a room recorded as `parent` through direction `d`. */
  function Step(parent: Depth, d: Dir): (child: Depth)
    ensures child.Scalar? == parent.Scalar?
  {
    match parent
    case Scalar(k) => Scalar(k + 1)
    case Offsets(n, e) =>
      match d
      case North => Offsets(n - 1, e)
      case South => Offsets(n + 1, e)
      case East => Offsets(n, e + 1)
      case West => Offsets(n, e - 1)
  }

  /** `x` was first reached from some room of `s` whose recorded depth it follows. */
  ghost predicate HasParent(rooms: Rooms, s: set<string>, depths: map<string, Depth>, x: string) {
    exists p, d :: p in s && Exit(rooms, p, d) == Some(x) && p in depths && x in depths
                   && depths[x] == Step(depths[p], d)
  }

  lemma HasParentGrows(rooms: Rooms, s: set<string>, s': set<string>,
                       depths: map<string, Depth>, depths': map<string, Depth>, x: string)
    requires HasParent(rooms, s, depths, x) && s <= s' && x in s
    requires forall k :: k in s ==> k in depths && k in depths' && depths'[k] == depths[k]
    ensures HasParent(rooms, s', depths', x)
  {
    var p, d :| p in s && Exit(rooms, p, d) == Some(x) && p in depths && x in depths
                && depths[x] == Step(depths[p], d);
    assert p in s' && Exit(rooms, p, d) == Some(x) && depths'[x] == Step(depths'[p], d);
  }

  /**
   * What a walk from `root` knows of a room `x` it added: `x` is reachable from
   * `root`, its depth has the kind of `root`'s, it follows its parent's unless it is
   * `root`, and, unless it is `root`, all its children have been visited.
   */
  ghost predicate Recorded(rooms: Rooms, added: set<string>, v: set<string>, d: map<string, Depth>,
                           root: string, rootDepth: Depth, x: string)
  {
    && x in d && d[x].Scalar? == rootDepth.Scalar?
    && Reachable(rooms, root, x)
    && (x != root ==> Children(rooms, x) <= v && HasParent(rooms, added, d, x))
  }

  /**
   * The state of a walk from `root` that started with visited set `v0` and depths
   * `d0` and now has `v` and `d`: the rooms added are the new keys of `d`, the
   * depths of all other rooms are as they were, and each added room is Recorded.
   */
  ghost predicate Partial(rooms: Rooms, v0: set<string>, v: set<string>,
                          d0: map<string, Depth>, d: map<string, Depth>, root: string, rootDepth: Depth)
  {
    && v0 <= v && root in v - v0
    && root in d && d[root] == rootDepth
    && d.Keys == d0.Keys + (v - v0)
    && (forall k {:trigger d[k]} :: k in d0 && k !in v - v0 ==> d[k] == d0[k])
    && AllRecorded(rooms, v - v0, v, d, root, rootDepth)
  }

  /** Every room in `added` is Recorded. */
  ghost predicate AllRecorded(rooms: Rooms, added: set<string>, v: set<string>, d: map<string, Depth>,
                              root: string, rootDepth: Depth)
  {
    forall x {:trigger Recorded(rooms, added, v, d, root, rootDepth, x)} ::
      x in added ==> Recorded(rooms, added, v, d, root, rootDepth, x)
  }

  /**
   * What one call of a walk does: a room already visited changes nothing; otherwise
   * the walk marks and records it and every room reachable from it that was not
   * visited yet, each with a depth that follows its parent's, and leaves every other
   * recorded depth as it was.
   */
  ghost predicate Walked(rooms: Rooms, v0: set<string>, v: set<string>,
                         d0: map<string, Depth>, d: map<string, Depth>, root: string, rootDepth: Depth)
  {
    && (root in v0 ==> v == v0 && d == d0)
    && (root !in v0 ==> Partial(rooms, v0, v, d0, d, root, rootDepth)
                        && Children(rooms, root) <= v)
  }

  lemma Begin(rooms: Rooms, v0: set<string>, d0: map<string, Depth>, root: string, rootDepth: Depth)
    requires root !in v0
    ensures Partial(rooms, v0, v0 + {root}, d0, d0[root := rootDepth], root, rootDepth)
  {
    assert v0 + {root} - v0 == {root};
    ReachableSelf(rooms, root);
    assert Recorded(rooms, {root}, v0 + {root}, d0[root := rootDepth], root, rootDepth, root);
  }

  /** A call on an exit of `root` extends the walk of `root`. */
  lemma Extend(rooms: Rooms, v0: set<string>, va: set<string>, vb: set<string>,
               d0: map<string, Depth>, da: map<string, Depth>, db: map<string, Depth>,
               root: string, rootDepth: Depth, dir: Dir, t: string)
    requires Partial(rooms, v0, va, d0, da, root, rootDepth)
    requires Exit(rooms, root, dir) == Some(t)
    requires Walked(rooms, va, vb, da, db, t, Step(rootDepth, dir))
    ensures Partial(rooms, v0, vb, d0, db, root, rootDepth)
    ensures va <= vb && t in vb
  {
    if t !in va {
      var added := vb - v0;
      forall x | x in added ensures Recorded(rooms, added, vb, db, root, rootDepth, x) {
        if x in va - v0 {
          assert Recorded(rooms, va - v0, va, da, root, rootDepth, x);
          if x != root {
            HasParentGrows(rooms, va - v0, added, da, db, x);
          }
        } else {
          assert Recorded(rooms, vb - va, vb, db, t, Step(rootDepth, dir), x);
          ReachableStep(rooms, root, t, x);
          if x == t {
            assert root in added && Exit(rooms, root, dir) == Some(t) && db[t] == Step(db[root], dir);
          } else {
            HasParentGrows(rooms, vb - va, added, db, db, x);
          }
        }
      }
    }
  }

  /** A walk whose root has all its children visited is complete. */
  lemma Finish(rooms: Rooms, v0: set<string>, v: set<string>,
               d0: map<string, Depth>, d: map<string, Depth>, root: string, rootDepth: Depth)
    requires Partial(rooms, v0, v, d0, d, root, rootDepth)
    requires forall dir :: ExitSet(Exit(rooms, root, dir)) <= v
    ensures Walked(rooms, v0, v, d0, d, root, rootDepth)
  {
  }

  /** The exits of `root` in the directions `done` lead to visited rooms. */
  ghost predicate Covered(rooms: Rooms, root: string, done: set<Dir>, v: set<string>) {
    forall dir :: dir in done ==> ExitSet(Exit(rooms, root, dir)) <= v
  }

  lemma CoveredAll(rooms: Rooms, root: string, v: set<string>)
    requires Covered(rooms, root, {North, South, East, West}, v)
    ensures forall dir :: ExitSet(Exit(rooms, root, dir)) <= v
  {
    forall dir ensures ExitSet(Exit(rooms, root, dir)) <= v {
      match dir
      case North => assert North in {North, South, East, West};
      case South => assert South in {North, South, East, West};
      case East => assert East in {North, South, East, West};
      case West => assert West in {North, South, East, West};
    }
  }

  /** Once `r` is visited, what is left to visit is strictly less than before the walk of `r` began. */
  lemma Shrinks(targets: set<string>, r: string, v0: set<string>, v: set<string>)
    requires r !in v0 && r in v && v0 <= v
    ensures targets + {r} - v < targets + {r} - v0
  {
    assert r in targets + {r} - v0;
  }

  /** Math.abs */
  function Abs(i: int): nat {
    if i < 0 then -i else i
  }

  /** `m` is the largest absolute north offset over the rooms `keys` (0 when there are none). */
  ghost predicate IsMaxNorth(depths: map<string, Depth>, keys: set<string>, m: int) {
    && m >= 0
    && (forall k :: k in keys ==> k in depths && depths[k].Offsets? && Abs(depths[k].north) <= m)
    && (m == 0 || exists k :: k in keys && k in depths && depths[k].Offsets? && Abs(depths[k].north) == m)
  }

  /** `m` is the largest absolute east offset over the rooms `keys` (0 when there are none). */
  ghost predicate IsMaxEast(depths: map<string, Depth>, keys: set<string>, m: int) {
    && m >= 0
    && (forall k :: k in keys ==> k in depths && depths[k].Offsets? && Abs(depths[k].east) <= m)
    && (m == 0 || exists k :: k in keys && k in depths && depths[k].Offsets? && Abs(depths[k].east) == m)
  }

  /** 50 + offset * 40 / (maxDepth + 1): strictly within (10, 90) while |offset| <= maxDepth. */
  function Coord(offset: int, maxDepth: nat): (c: real)
    ensures Abs(offset) <= maxDepth ==> 10.0 < c < 90.0
    ensures offset == 0 ==> c == 50.0
  {
    var q := offset as real * 40.0 / (maxDepth + 1) as real;
    assert Abs(offset) <= maxDepth ==> -40.0 < q < 40.0 by {
      if Abs(offset) <= maxDepth {
        assert q * (maxDepth + 1) as real == offset as real * 40.0;
      }
    }
    50.0 + q
  }

  /** A larger offset gets a larger coordinate. */
  lemma CoordMonotone(a: int, b: int, maxDepth: nat)
    requires a < b
    ensures Coord(a, maxDepth) < Coord(b, maxDepth)
  {
    var m := (maxDepth + 1) as real;
    assert a as real * 40.0 < b as real * 40.0;
    assert (a as real * 40.0) / m < (b as real * 40.0) / m;
  }

  function Place(depth: Depth, maxNorth: nat, maxEast: nat): Position
    requires depth.Offsets?
  {
    Position(Coord(depth.east, maxEast), Coord(depth.north, maxNorth))
  }

  /**
   * The state `initializePositions` leaves behind: the rooms visited are exactly those
   * reachable from the start, each has offsets (no scalar depth survives), each
   * room but the start follows its parent, and each position is its offsets mapped
   * with the largest absolute offsets on either axis.
   */
  ghost predicate LaidOut(rooms: Rooms, visited: set<string>, depths: map<string, Depth>,
                          positions: map<string, Position>)
  {
    && (forall x {:trigger Reachable(rooms, Start, x)} :: x in visited <==> Reachable(rooms, Start, x))
    && depths.Keys == visited && positions.Keys == visited
    && Start in depths && depths[Start] == Offsets(0, 0)
    && (forall x :: x in depths ==> depths[x].Offsets?)
    && (forall x {:trigger HasParent(rooms, visited, depths, x)} :: x in visited && x != Start ==> HasParent(rooms, visited, depths, x))
    && exists maxNorth: nat, maxEast: nat ::
         && IsMaxNorth(depths, depths.Keys, maxNorth) && IsMaxEast(depths, depths.Keys, maxEast)
         && forall x :: x in positions ==> positions[x] == Place(depths[x], maxNorth, maxEast)
  }

  /** Every laid-out room lies strictly inside the 10..90 percent square. */
  lemma LaidOutInBounds(rooms: Rooms, visited: set<string>, depths: map<string, Depth>,
                        positions: map<string, Position>)
    requires LaidOut(rooms, visited, depths, positions)
    ensures forall x :: x in positions ==> 10.0 < positions[x].x < 90.0 && 10.0 < positions[x].y < 90.0
  {
    var maxNorth: nat, maxEast: nat :|
      && IsMaxNorth(depths, depths.Keys, maxNorth) && IsMaxEast(depths, depths.Keys, maxEast)
      && forall x :: x in positions ==> positions[x] == Place(depths[x], maxNorth, maxEast);
    forall x | x in positions
      ensures 10.0 < positions[x].x < 90.0 && 10.0 < positions[x].y < 90.0
    {
      assert Abs(depths[x].east) <= maxEast && Abs(depths[x].north) <= maxNorth;
    }
  }

  /** The start room sits in the centre of the map. */
  lemma LaidOutStartCentred(rooms: Rooms, visited: set<string>, depths: map<string, Depth>,
                            positions: map<string, Position>)
    requires LaidOut(rooms, visited, depths, positions)
    ensures Start in positions && positions[Start] == Position(50.0, 50.0)
  {
    var maxNorth: nat, maxEast: nat :|
      && IsMaxNorth(depths, depths.Keys, maxNorth) && IsMaxEast(depths, depths.Keys, maxEast)
      && forall x :: x in positions ==> positions[x] == Place(depths[x], maxNorth, maxEast);
    assert positions[Start] == Place(Offsets(0, 0), maxNorth, maxEast);
  }

  /** A room further east is drawn further right, and one further south further down. */
  lemma LaidOutOrdered(rooms: Rooms, visited: set<string>, depths: map<string, Depth>,
                       positions: map<string, Position>, a: string, b: string)
    requires LaidOut(rooms, visited, depths, positions)
    requires a in positions && b in positions
    ensures depths[a].east < depths[b].east ==> positions[a].x < positions[b].x
    ensures depths[a].north < depths[b].north ==> positions[a].y < positions[b].y
  {
    var maxNorth: nat, maxEast: nat :|
      && IsMaxNorth(depths, depths.Keys, maxNorth) && IsMaxEast(depths, depths.Keys, maxEast)
      && forall x :: x in positions ==> positions[x] == Place(depths[x], maxNorth, maxEast);
    if depths[a].east < depths[b].east {
      CoordMonotone(depths[a].east, depths[b].east, maxEast);
    }
    if depths[a].north < depths[b].north {
      CoordMonotone(depths[a].north, depths[b].north, maxNorth);
    }
  }

  /** A complete second walk from the start, begun with nothing visited, visits exactly the reachable rooms and overwrites every recorded depth. */
  lemma WalkFromStart(rooms: Rooms, visited: set<string>, d0: map<string, Depth>, depths: map<string, Depth>)
    requires Walked(rooms, {}, visited, d0, depths, Start, Offsets(0, 0))
    requires forall k {:trigger Reachable(rooms, Start, k)} :: k in d0 ==> Reachable(rooms, Start, k)
    ensures forall x {:trigger Reachable(rooms, Start, x)} :: x in visited <==> Reachable(rooms, Start, x)
    ensures depths.Keys == visited && d0.Keys <= visited
    ensures Start in depths && depths[Start] == Offsets(0, 0)
    ensures forall x :: x in depths ==> depths[x].Offsets?
    ensures forall x {:trigger HasParent(rooms, visited, depths, x)} :: x in visited && x != Start ==> HasParent(rooms, visited, depths, x)
  {
    assert visited - {} == visited;
    assert forall x :: x in visited ==> Recorded(rooms, visited, visited, depths, Start, Offsets(0, 0), x);
    assert Closed(rooms, visited);
    forall x | Reachable(rooms, Start, x) ensures x in visited {
      ClosedHoldsReachable(rooms, visited, Start, x);
    }
  }

  /** A walk from the start records only rooms reachable from the start. */
  lemma WalkRecordsReachable(rooms: Rooms, v0: set<string>, v: set<string>,
                             d0: map<string, Depth>, d: map<string, Depth>, rootDepth: Depth)
    requires Walked(rooms, v0, v, d0, d, Start, rootDepth)
    requires forall k {:trigger Reachable(rooms, Start, k)} :: k in d0 ==> Reachable(rooms, Start, k)
    ensures d0.Keys <= d.Keys
    ensures forall k {:trigger Reachable(rooms, Start, k)} :: k in d ==> Reachable(rooms, Start, k)
  {
    forall k | k in d ensures Reachable(rooms, Start, k) {
      if k in v - v0 {
        assert Recorded(rooms, v - v0, v, d, Start, rootDepth, k);
      }
    }
  }

  /** The layout the two loops of `positionRooms` leave behind. */
  lemma Conclude(rooms: Rooms, visited: set<string>, depths: map<string, Depth>,
                 positions: map<string, Position>, maxNorth: nat, maxEast: nat)
    requires forall x {:trigger Reachable(rooms, Start, x)} :: x in visited <==> Reachable(rooms, Start, x)
    requires depths.Keys == visited && positions.Keys == visited
    requires Start in depths && depths[Start] == Offsets(0, 0)
    requires forall x :: x in depths ==> depths[x].Offsets?
    requires forall x {:trigger HasParent(rooms, visited, depths, x)} :: x in visited && x != Start ==> HasParent(rooms, visited, depths, x)
    requires IsMaxNorth(depths, depths.Keys, maxNorth) && IsMaxEast(depths, depths.Keys, maxEast)
    requires forall x :: x in positions ==> positions[x] == Place(depths[x], maxNorth, maxEast)
    ensures LaidOut(rooms, visited, depths, positions)
  {
  }

  class ForceDirectedLayout {
    const rooms: Rooms
    var positions: map<string, Position>
    var depths: map<string, Depth>
    var visited: set<string>

    /** Every recorded room is reachable from the start, and every positioned room is recorded. */
    ghost predicate Valid()
      reads this
    {
      && (forall k {:trigger Reachable(rooms, Start, k)} :: k in depths ==> Reachable(rooms, Start, k))
      && positions.Keys <= depths.Keys
    }

    constructor (rooms: Rooms)
      ensures this.rooms == rooms
      ensures positions == map[] && depths == map[] && visited == {}
      ensures Valid()
    {
      this.rooms := rooms;
      positions := map[];
      depths := map[];
      visited := {};
    }

    method InitializePositions()
      requires Valid()
      modifies this
      ensures Valid()
      ensures LaidOut(rooms, visited, depths, positions)
    {
      ghost var d0 := depths;
      CalculateDepths(Start, 0);
      WalkRecordsReachable(rooms, old(visited), visited, d0, depths, Scalar(0));
      PositionRooms();
    }

    /** The first walk (`calculateDepths`): records the number of steps taken from the start. */
    method CalculateDepths(roomId: string, depth: int)
      modifies this
      decreases Targets(rooms) + {roomId} - visited, 0
      ensures positions == old(positions)
      ensures Walked(rooms, old(visited), visited, old(depths), depths, roomId, Scalar(depth))
    {
      if roomId in visited {
        return;
      }
      ghost var v0, d0 := visited, depths;
      visited := visited + {roomId};
      depths := depths[roomId := Scalar(depth)];
      Begin(rooms, v0, d0, roomId, Scalar(depth));

      if roomId !in rooms || rooms[roomId].exits.None? {
        return;
      }

      var directions := [North, South, East, West];
      var i := 0;
      while i < |directions|
        invariant 0 <= i <= |directions|
        invariant positions == old(positions)
        invariant Partial(rooms, v0, visited, d0, depths, roomId, Scalar(depth))
        invariant forall j :: 0 <= j < i ==> ExitSet(Exit(rooms, roomId, directions[j])) <= visited
      {
        ghost var before := visited;
        DepthsAlong(roomId, depth, directions[i], v0, d0);
        assert before <= visited;
        i := i + 1;
      }
      assert directions[0] == North && directions[1] == South && directions[2] == East && directions[3] == West;
      Finish(rooms, v0, visited, d0, depths, roomId, Scalar(depth));
    }

    /** The body of the first walk's `forEach`: follows the exit in `direction` if it is truthy. */
    method DepthsAlong(roomId: string, depth: int, direction: Dir,
                       ghost v0: set<string>, ghost d0: map<string, Depth>)
      requires Partial(rooms, v0, visited, d0, depths, roomId, Scalar(depth))
      modifies this
      decreases Targets(rooms) + {roomId} - visited, 1
      ensures positions == old(positions)
      ensures Partial(rooms, v0, visited, d0, depths, roomId, Scalar(depth))
      ensures old(visited) <= visited
      ensures ExitSet(Exit(rooms, roomId, direction)) <= visited
    {
      match Exit(rooms, roomId, direction) {
        case Some(next) =>
          ghost var va, da := visited, depths;
          ChildInTargets(rooms, roomId, next);
          assert Step(Scalar(depth), direction) == Scalar(depth + 1);
          CalculateDepths(next, depth + 1);
          Extend(rooms, v0, va, visited, d0, da, depths, roomId, Scalar(depth), direction, next);
        case None =>
      }
    }

    /** Reruns the walk with offsets, then maps every recorded room to a position. */
    method PositionRooms()
      requires Valid()
      modifies this
      ensures Valid()
      ensures LaidOut(rooms, visited, depths, positions)
    {
      var maxNorthDepth: nat, maxEastDepth: nat;

      visited := {};
      ghost var d0, p0 := depths, positions;
      CalculateDirectionalDepths(Start, 0, 0);
      WalkFromStart(rooms, visited, d0, depths);

      maxNorthDepth, maxEastDepth := MaxDepths();
      PlaceRooms(maxNorthDepth, maxEastDepth);
      assert positions.Keys == visited;
      Conclude(rooms, visited, depths, positions, maxNorthDepth, maxEastDepth);
    }

    /** The first `forEach` of `positionRooms`: the largest absolute offset on each axis. */
    method MaxDepths() returns (maxNorthDepth: nat, maxEastDepth: nat)
      requires forall x :: x in depths ==> depths[x].Offsets?
      ensures IsMaxNorth(depths, depths.Keys, maxNorthDepth)
      ensures IsMaxEast(depths, depths.Keys, maxEastDepth)
    {
      maxNorthDepth, maxEastDepth := 0, 0;
      var todo := depths.Keys;
      while todo != {}
        invariant todo <= depths.Keys
        invariant IsMaxNorth(depths, depths.Keys - todo, maxNorthDepth)
        invariant IsMaxEast(depths, depths.Keys - todo, maxEastDepth)
        decreases todo
      {
        var roomId :| roomId in todo;
        maxNorthDepth := if maxNorthDepth < Abs(depths[roomId].north) then Abs(depths[roomId].north) else maxNorthDepth;
        maxEastDepth := if maxEastDepth < Abs(depths[roomId].east) then Abs(depths[roomId].east) else maxEastDepth;
        todo := todo - {roomId};
      }
      assert depths.Keys - todo == depths.Keys;
    }

    /** The second `forEach` of `positionRooms`: sets the position of every recorded room. */
    method PlaceRooms(maxNorthDepth: nat, maxEastDepth: nat)
      requires forall x :: x in depths ==> depths[x].Offsets?
      modifies this
      ensures visited == old(visited) && depths == old(depths)
      ensures positions.Keys == old(positions).Keys + depths.Keys
      ensures forall x :: x in depths ==> positions[x] == Place(depths[x], maxNorthDepth, maxEastDepth)
      ensures forall x :: x in positions && x !in depths ==> positions[x] == old(positions)[x]
    {
      var todo := depths.Keys;
      while todo != {}
        invariant visited == old(visited) && depths == old(depths)
        invariant todo <= depths.Keys
        invariant positions.Keys == old(positions).Keys + (depths.Keys - todo)
        invariant forall x :: x in depths.Keys - todo ==> positions[x] == Place(depths[x], maxNorthDepth, maxEastDepth)
        invariant forall x :: x in positions && x !in depths ==> positions[x] == old(positions)[x]
        decreases todo
      {
        var roomId :| roomId in todo;
        var x := Coord(depths[roomId].east, maxEastDepth);
        var y := Coord(depths[roomId].north, maxNorthDepth);
        positions := positions[roomId := Position(x, y)];
        todo := todo - {roomId};
      }
      assert depths.Keys - todo == depths.Keys;
    }

    /** The second walk (`calculateDirectionalDepths`): records north-south and east-west offsets from the start. */
    method CalculateDirectionalDepths(roomId: string, northDepth: int, eastDepth: int)
      modifies this
      decreases Targets(rooms) + {roomId} - visited, 0
      ensures positions == old(positions)
      ensures Walked(rooms, old(visited), visited, old(depths), depths, roomId, Offsets(northDepth, eastDepth))
    {
      if roomId in visited {
        return;
      }
      ghost var v0, d0 := visited, depths;
      ghost var here := Offsets(northDepth, eastDepth);
      assert Step(here, North) == Offsets(northDepth - 1, eastDepth) && Step(here, South) == Offsets(northDepth + 1, eastDepth);
      assert Step(here, East) == Offsets(northDepth, eastDepth + 1) && Step(here, West) == Offsets(northDepth, eastDepth - 1);
      visited := visited + {roomId};
      depths := depths[roomId := Offsets(northDepth, eastDepth)];
      Begin(rooms, v0, d0, roomId, here);

      if roomId !in rooms || rooms[roomId].exits.None? {
        Finish(rooms, v0, visited, d0, depths, roomId, here);
        return;
      }

      ghost var none: set<Dir> := {};
      ghost var n := none + {North};
      ghost var ns := n + {South};
      ghost var nse := ns + {East};
      assert nse + {West} == {North, South, East, West};
      Shrinks(Targets(rooms), roomId, v0, visited);
      OffsetsAlong(roomId, North, northDepth - 1, eastDepth, v0, d0, here, none);
      Shrinks(Targets(rooms), roomId, v0, visited);
      OffsetsAlong(roomId, South, northDepth + 1, eastDepth, v0, d0, here, n);
      Shrinks(Targets(rooms), roomId, v0, visited);
      OffsetsAlong(roomId, East, northDepth, eastDepth + 1, v0, d0, here, ns);
      Shrinks(Targets(rooms), roomId, v0, visited);
      OffsetsAlong(roomId, West, northDepth, eastDepth - 1, v0, d0, here, nse);
      CoveredAll(rooms, roomId, visited);
      Finish(rooms, v0, visited, d0, depths, roomId, here);
    }

    /** One `if (room.exits.<direction>)` of the second walk, with the offsets the call passes on. */
    method OffsetsAlong(roomId: string, direction: Dir, northDepth: int, eastDepth: int,
                        ghost v0: set<string>, ghost d0: map<string, Depth>, ghost here: Depth,
                        ghost done: set<Dir>)
      requires Partial(rooms, v0, visited, d0, depths, roomId, here)
      requires Offsets(northDepth, eastDepth) == Step(here, direction)
      requires Covered(rooms, roomId, done, visited)
      modifies this
      decreases Targets(rooms) + {roomId} - visited, 1
      ensures positions == old(positions)
      ensures Partial(rooms, v0, visited, d0, depths, roomId, here)
      ensures Covered(rooms, roomId, done + {direction}, visited)
    {
      match Exit(rooms, roomId, direction) {
        case Some(next) =>
          ghost var va, da := visited, depths;
          ChildInTargets(rooms, roomId, next);
          CalculateDirectionalDepths(next, northDepth, eastDepth);
          Extend(rooms, v0, va, visited, d0, da, depths, roomId, here, direction, next);
        case None =>
      }
    }

    /** The positions, copied one room at a time. */
    method GetLayout() returns (layout: map<string, Position>)
      ensures layout == positions
    {
      layout := map[];
      var todo := positions.Keys;
      while todo != {}
        invariant todo <= positions.Keys
        invariant layout.Keys == positions.Keys - todo
        invariant forall x :: x in layout ==> layout[x] == positions[x]
        decreases todo
      {
        var roomId :| roomId in todo;
        layout := layout[roomId := Position(positions[roomId].x, positions[roomId].y)];
        todo := todo - {roomId};
      }
    }
  }
}
