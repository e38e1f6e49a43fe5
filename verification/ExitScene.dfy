/** Which lines a map shows for the exits of its rooms: a two-way exit is one line, drawn from one of its ends. */
module ExitScene {

  datatype Direction =
    | North | Northeast | East | Southeast | South | Southwest | West | Northwest | Up | Down | In | Out

  const DIRECTIONS := [North, Northeast, East, Southeast, South, Southwest, West, Northwest, Up, Down, In, Out]

  function Reverse(d: Direction): (r: Direction)
    ensures r != d && (r.In? || r.Out? <==> d.In? || d.Out?)
  {
    match d
    case North => South
    case Northeast => Southwest
    case East => West
    case Southeast => Northwest
    case South => North
    case Southwest => Northeast
    case West => East
    case Northwest => Southeast
    case Up => Down
    case Down => Up
    case In => Out
    case Out => In
  }

  lemma {:induction false} ReverseOfReverse(d: Direction)
    ensures Reverse(Reverse(d)) == d && d in DIRECTIONS
  {
    assert DIRECTIONS[0] == North && DIRECTIONS[1] == Northeast && DIRECTIONS[2] == East && DIRECTIONS[3] == Southeast;
    assert DIRECTIONS[4] == South && DIRECTIONS[5] == Southwest && DIRECTIONS[6] == West && DIRECTIONS[7] == Northwest;
    assert DIRECTIONS[8] == Up && DIRECTIONS[9] == Down && DIRECTIONS[10] == In && DIRECTIONS[11] == Out;
  }

  /** A room; `customLines` are the directions a line of the user's covers. */
  datatype Room = Room(area: int, x: int, y: int, z: int, hidden: bool, exits: map<Direction, int>, customLines: set<Direction>)

  type Map = map<int, Room>

  datatype Options = Options(areaId: int, centerZ: int, levelsAbove: int, levelsBelow: int,
                             inOutStubs: bool, dashedStairs: bool, areaExitsOnly: bool)

  function ExitOf(room: Room, d: Direction): int {
    if d in room.exits then room.exits[d] else -1
  }

  predicate LevelShown(o: Options, z: int) {
    z - o.centerZ <= o.levelsAbove && -(z - o.centerZ) <= o.levelsBelow
  }

  /** The room's exits are drawn. */
  predicate DrawsExits(m: Map, o: Options, id: int) {
    id in m && !m[id].hidden && m[id].area == o.areaId && LevelShown(o, m[id].z)
  }

  /** The exit leads to a room that can be seen, and no custom line covers it. */
  predicate DrawnExit(m: Map, id: int, d: Direction)
    requires id in m
  {
    var to := ExitOf(m[id], d);
    to > 0 && d !in m[id].customLines && to in m && !m[to].hidden
  }

  predicate OneWay(m: Map, id: int, d: Direction)
    requires id in m && ExitOf(m[id], d) in m
  {
    ExitOf(m[ExitOf(m[id], d)], Reverse(d)) != id
  }

  predicate HasOneWayExitTo(m: Map, id: int, to: int)
    requires id in m && to in m
  {
    exists d :: ExitOf(m[id], d) == to && d !in m[id].customLines && ExitOf(m[to], Reverse(d)) != id
  }

  function Size(a: int): nat {
    if a < 0 then -a else a
  }

  function NearerLevel(o: Options, a: int, b: int): int {
    if Size(a - o.centerZ) != Size(b - o.centerZ) then if Size(a - o.centerZ) < Size(b - o.centerZ) then a else b
    else if a < b then a else b
  }

  // ---- one exit ----

  datatype Kind = AreaExit | Stub | Shaft(oneWay: bool) | Dotted | DashedStairs | Solid

  datatype Outcome = Nothing | LeftToTheOther | Draws(kind: Kind)

  predicate UpOrDown(m: Map, id: int, d: Direction)
    requires id in m && ExitOf(m[id], d) in m
  {
    var rise := m[ExitOf(m[id], d)].z - m[id].z;
    (d == Up && rise > 0) || (d == Down && rise < 0)
  }

  predicate SameColumn(a: Room, b: Room) {
    a.x == b.x && a.y == b.y
  }

  /** One of the room's drawn exits to there is one-way. */
  predicate OneWayTo(m: Map, o: Options, id: int, to: int)
    requires id in m && to in m
  {
    exists d ::
      && ExitOf(m[id], d) == to && DrawnExit(m, id, d) && !(o.areaExitsOnly && m[to].area == o.areaId) && OneWay(m, id, d)
  }

  /** The other end draws the line of a two-way exit. */
  predicate OtherEndDraws(m: Map, o: Options, id: int, d: Direction)
    requires id in m && ExitOf(m[id], d) in m
  {
    var to := ExitOf(m[id], d);
    DrawsExits(m, o, to) && Reverse(d) !in m[to].customLines && !HasOneWayExitTo(m, to, id)
  }

  function OutcomeOf(m: Map, o: Options, id: int, d: Direction): Outcome
    requires id in m
  {
    if !DrawnExit(m, id, d) || (o.areaExitsOnly && m[ExitOf(m[id], d)].area == o.areaId) then Nothing
    else
      var to, inOrOut := ExitOf(m[id], d), d.In? || d.Out?;
      if m[to].area != o.areaId then if inOrOut then Nothing else Draws(AreaExit)
      else if inOrOut && o.inOutStubs then Draws(Stub)
      else if UpOrDown(m, id, d) && !SameColumn(m[id], m[to]) then Draws(Shaft(OneWay(m, id, d)))
      else if OneWayTo(m, o, id, to) then Draws(Dotted)
      else if OtherEndDraws(m, o, id, d) && to < id then LeftToTheOther
      else if UpOrDown(m, id, d) && o.dashedStairs then Draws(DashedStairs)
      else Draws(Solid)
  }

  /** The outcome is the line of a two-way exit. */
  predicate WholeLine(outcome: Outcome) {
    outcome == Draws(Solid) || outcome == Draws(DashedStairs)
  }

  /** A line left to the other end is drawn there, solid or dashed as it would have been here, and on the same level. */
  lemma {:induction false} LeftIsDrawn(m: Map, o: Options, id: int, d: Direction)
    requires id > 0 && DrawsExits(m, o, id) && OutcomeOf(m, o, id, d) == LeftToTheOther
    ensures var to := ExitOf(m[id], d);
            && DrawsExits(m, o, to) && ExitOf(m[to], Reverse(d)) == id
            && OutcomeOf(m, o, to, Reverse(d)) == Draws(if UpOrDown(m, id, d) && o.dashedStairs then DashedStairs else Solid)
            && NearerLevel(o, m[id].z, m[to].z) == NearerLevel(o, m[to].z, m[id].z)
  {
    var to := ExitOf(m[id], d);
    ReverseOfReverse(d);
    assert ExitOf(m[id], d) == to && DrawnExit(m, id, d) && !OneWay(m, id, d);
    OneWaysAreSeen(m, o, to, id);
  }

  /** The two ends of a two-way exit between shown rooms, drawn as a line between them. */
  predicate Pair(m: Map, o: Options, a: int, b: int, d: Direction) {
    && 0 < a < b && DrawsExits(m, o, a) && DrawsExits(m, o, b) && !o.areaExitsOnly
    && ExitOf(m[a], d) == b && ExitOf(m[b], Reverse(d)) == a
    && !((d.In? || d.Out?) && o.inOutStubs) && !(UpOrDown(m, a, d) && !SameColumn(m[a], m[b]))
  }

  /** No custom line covers the exit, and no uncovered exit to the other end is one-way. */
  predicate Clear(m: Map, id: int, to: int, d: Direction)
    requires id in m && to in m
  {
    d !in m[id].customLines && !HasOneWayExitTo(m, id, to)
  }

  lemma {:induction false} OneWaysAreSeen(m: Map, o: Options, id: int, to: int)
    requires id > 0 && to > 0 && DrawsExits(m, o, id) && DrawsExits(m, o, to) && !o.areaExitsOnly
    ensures OneWayTo(m, o, id, to) <==> HasOneWayExitTo(m, id, to)
  {
    if HasOneWayExitTo(m, id, to) {
      var d :| ExitOf(m[id], d) == to && d !in m[id].customLines && ExitOf(m[to], Reverse(d)) != id;
      assert DrawnExit(m, id, d) && OneWay(m, id, d);
    }
    if OneWayTo(m, o, id, to) {
      var d :| ExitOf(m[id], d) == to && DrawnExit(m, id, d) && OneWay(m, id, d);
      assert ExitOf(m[id], d) == to && d !in m[id].customLines && ExitOf(m[to], Reverse(d)) != id;
    }
  }

  /** The lower-numbered end draws the line when it is clear, and otherwise the other end when that is. */
  lemma {:induction false} PairIsDrawnOnce(m: Map, o: Options, a: int, b: int, d: Direction)
    requires Pair(m, o, a, b, d)
    ensures WholeLine(OutcomeOf(m, o, a, d)) <==> Clear(m, a, b, d)
    ensures WholeLine(OutcomeOf(m, o, b, Reverse(d))) <==> Clear(m, b, a, Reverse(d)) && !Clear(m, a, b, d)
  {
    ReverseOfReverse(d);
    OneWaysAreSeen(m, o, a, b);
    OneWaysAreSeen(m, o, b, a);
  }

  // ---- the scene ----

  datatype Line = Line(kind: Kind, from: int, direction: Direction, to: int, level: int)

  /** Rooms in one place have no line between them. */
  predicate Apart(a: Room, b: Room) {
    a.x != b.x || a.y != b.y || a.z != b.z
  }

  function ExitLines(m: Map, o: Options, id: int, d: Direction): seq<Line>
    requires id in m
  {
    var outcome := OutcomeOf(m, o, id, d);
    if !outcome.Draws? then [] else
      var to := ExitOf(m[id], d);
      if outcome.kind.AreaExit? || outcome.kind.Shaft? then [Line(outcome.kind, id, d, to, m[id].z)]
      else if !Apart(m[id], m[to]) then []
      else [Line(outcome.kind, id, d, to, if outcome.kind.Stub? then m[id].z else NearerLevel(o, m[id].z, m[to].z))]
  }

  function RoomLines(m: Map, o: Options, id: int, n: nat): seq<Line>
    requires id in m && n <= |DIRECTIONS|
  {
    if n == 0 then [] else RoomLines(m, o, id, n - 1) + ExitLines(m, o, id, DIRECTIONS[n - 1])
  }

  function SceneLines(m: Map, o: Options, rooms: seq<int>): seq<Line> {
    if rooms == [] then [] else
      var last := rooms[|rooms| - 1];
      SceneLines(m, o, rooms[..|rooms| - 1]) +
      if last !in m || m[last].hidden || !LevelShown(o, m[last].z) then [] else RoomLines(m, o, last, |DIRECTIONS|)
  }

  /** The rooms of an area, each once. */
  ghost predicate RoomsOf(m: Map, o: Options, rooms: seq<int>) {
    && (forall i, j :: 0 <= i < j < |rooms| ==> rooms[i] != rooms[j])
    && (forall id :: id in m && m[id].area == o.areaId ==> id in rooms)
    && (forall id :: id in rooms && id in m ==> m[id].area == o.areaId)
  }

  /** How many of the lines run along this exit as one whole line. */
  function WholeLines(lines: seq<Line>, from: int, d: Direction): nat {
    if lines == [] then 0 else
      WholeLines(lines[..|lines| - 1], from, d) +
      var l := lines[|lines| - 1];
      if l.from == from && l.direction == d && WholeLine(Draws(l.kind)) then 1 else 0
  }

  lemma {:induction false} WholeLinesAdd(a: seq<Line>, b: seq<Line>, from: int, d: Direction)
    ensures WholeLines(a + b, from, d) == WholeLines(a, from, d) + WholeLines(b, from, d)
    decreases |b|
  {
    if b == [] {
      assert a + b == a;
    } else {
      assert (a + b)[..|a + b| - 1] == a + b[..|b| - 1];
      WholeLinesAdd(a, b[..|b| - 1], from, d);
    }
  }

  function IfWhole(m: Map, o: Options, id: int, d: Direction): nat
    requires id in m
  {
    if WholeLine(OutcomeOf(m, o, id, d)) && Apart(m[id], m[ExitOf(m[id], d)]) then 1 else 0
  }

  lemma {:induction false} ExitCounted(m: Map, o: Options, id: int, at: Direction, from: int, d: Direction)
    requires id in m
    ensures WholeLines(ExitLines(m, o, id, at), from, d) == if id == from && at == d then IfWhole(m, o, id, d) else 0
  {
    var lines := ExitLines(m, o, id, at);
    if lines != [] {
      assert lines[..0] == [];
    }
  }

  function PlaceOf(d: Direction): (i: nat)
    ensures i < |DIRECTIONS| && DIRECTIONS[i] == d && forall j :: 0 <= j < |DIRECTIONS| && DIRECTIONS[j] == d ==> j == i
  {
    match d
    case North => 0
    case Northeast => 1
    case East => 2
    case Southeast => 3
    case South => 4
    case Southwest => 5
    case West => 6
    case Northwest => 7
    case Up => 8
    case Down => 9
    case In => 10
    case Out => 11
  }

  lemma {:induction false} RoomLinesAre(m: Map, o: Options, id: int, n: nat)
    requires id in m && n <= |DIRECTIONS|
    ensures RoomLines(m, o, id, n) ==
            if n == 0 then [] else RoomLines(m, o, id, n - 1) + ExitLines(m, o, id, DIRECTIONS[n - 1])
  {
  }

  lemma {:induction false} NoneCounted(from: int, d: Direction)
    ensures WholeLines([], from, d) == 0
  {
  }

  lemma {:induction false} AtPlace(i: nat, d: Direction)
    requires i < |DIRECTIONS|
    ensures DIRECTIONS[i] == d <==> PlaceOf(d) == i
  {
  }

  lemma {:induction false} RoomCounted(m: Map, o: Options, id: int, n: nat, from: int, d: Direction)
    requires id in m && n <= |DIRECTIONS|
    ensures WholeLines(RoomLines(m, o, id, n), from, d) == if id == from && PlaceOf(d) < n then IfWhole(m, o, id, d) else 0
    decreases n
  {
    hide *;
    RoomLinesAre(m, o, id, n);
    if n == 0 {
      NoneCounted(from, d);
    } else {
      RoomCounted(m, o, id, n - 1, from, d);
      AtPlace(n - 1, d);
      ExitCounted(m, o, id, DIRECTIONS[n - 1], from, d);
      WholeLinesAdd(RoomLines(m, o, id, n - 1), ExitLines(m, o, id, DIRECTIONS[n - 1]), from, d);
    }
  }

  lemma {:induction false} SceneCounted(m: Map, o: Options, rooms: seq<int>, from: int, d: Direction)
    requires forall i, j :: 0 <= i < j < |rooms| ==> rooms[i] != rooms[j]
    ensures WholeLines(SceneLines(m, o, rooms), from, d) ==
            if from in rooms && from in m && !m[from].hidden && LevelShown(o, m[from].z) then IfWhole(m, o, from, d) else 0
    decreases |rooms|
  {
    if rooms != [] {
      var before, last := rooms[..|rooms| - 1], rooms[|rooms| - 1];
      SceneCounted(m, o, before, from, d);
      assert from in rooms <==> from in before || from == last;
      assert last !in before;
      var lines := if last !in m || m[last].hidden || !LevelShown(o, m[last].z) then [] else RoomLines(m, o, last, |DIRECTIONS|);
      WholeLinesAdd(SceneLines(m, o, before), lines, from, d);
      if last in m {
        RoomCounted(m, o, last, |DIRECTIONS|, from, d);
      }
    }
  }

  /** However the rooms are ordered: a two-way exit between two rooms apart is drawn as just one line if one of its ends
      is clear, and not at all as a whole line if neither is. */
  lemma {:induction false} SceneDrawsPairsOnce(m: Map, o: Options, rooms: seq<int>, a: int, b: int, d: Direction)
    requires RoomsOf(m, o, rooms) && Pair(m, o, a, b, d) && Apart(m[a], m[b])
    ensures var lines := SceneLines(m, o, rooms);
            WholeLines(lines, a, d) + WholeLines(lines, b, Reverse(d)) ==
            if Clear(m, a, b, d) || Clear(m, b, a, Reverse(d)) then 1 else 0
  {
    SceneCounted(m, o, rooms, a, d);
    SceneCounted(m, o, rooms, b, Reverse(d));
    PairIsDrawnOnce(m, o, a, b, d);
  }

  // ---- the builder ----

  datatype Exit = Exit(direction: Direction, destinationId: int, oneWay: bool)

  predicate Listed(m: Map, o: Options, id: int, d: Direction)
    requires id in m
  {
    DrawnExit(m, id, d) && !(o.areaExitsOnly && m[ExitOf(m[id], d)].area == o.areaId)
  }

  /** The exits of a room that are looked at, of its first n directions. */
  function Exits(m: Map, o: Options, id: int, n: nat): (r: seq<Exit>)
    requires id in m && n <= |DIRECTIONS|
    ensures forall k :: 0 <= k < |r| ==>
              && Listed(m, o, id, r[k].direction) && r[k].destinationId == ExitOf(m[id], r[k].direction)
              && r[k].oneWay == OneWay(m, id, r[k].direction)
  {
    if n == 0 then []
    else
      var before, d := Exits(m, o, id, n - 1), DIRECTIONS[n - 1];
      if Listed(m, o, id, d) then before + [Exit(d, ExitOf(m[id], d), OneWay(m, id, d))] else before
  }

  lemma {:induction false} ListedAreFound(m: Map, o: Options, id: int, n: nat, d: Direction) returns (k: nat)
    requires id in m && n <= |DIRECTIONS| && Listed(m, o, id, d) && PlaceOf(d) < n
    ensures k < |Exits(m, o, id, n)| && Exits(m, o, id, n)[k].direction == d
    decreases n
  {
    if PlaceOf(d) == n - 1 {
      k := |Exits(m, o, id, n - 1)|;
    } else {
      k := ListedAreFound(m, o, id, n - 1, d);
    }
  }

  function ListedLines(m: Map, o: Options, id: int, exits: seq<Exit>): seq<Line>
    requires id in m
  {
    if exits == [] then [] else
      ListedLines(m, o, id, exits[..|exits| - 1]) + ExitLines(m, o, id, exits[|exits| - 1].direction)
  }

  lemma {:induction false} NoneListed(m: Map, o: Options, id: int, exits: seq<Exit>)
    requires id in m
    ensures ListedLines(m, o, id, exits[..0]) == []
  {
  }

  lemma {:induction false} ListedMore(m: Map, o: Options, id: int, exits: seq<Exit>, k: nat)
    requires id in m && k < |exits|
    ensures ListedLines(m, o, id, exits[..k + 1]) == ListedLines(m, o, id, exits[..k]) + ExitLines(m, o, id, exits[k].direction)
  {
    assert exits[..k + 1][..k] == exits[..k];
  }

  lemma {:induction false} ListedAreAll(m: Map, o: Options, id: int, n: nat)
    requires id in m && n <= |DIRECTIONS|
    ensures ListedLines(m, o, id, Exits(m, o, id, n)) == RoomLines(m, o, id, n)
    decreases n
  {
    if n > 0 {
      ListedAreAll(m, o, id, n - 1);
      var before, exits := Exits(m, o, id, n - 1), Exits(m, o, id, n);
      if Listed(m, o, id, DIRECTIONS[n - 1]) {
        assert exits[..|exits| - 1] == before;
      }
    }
  }

  lemma {:induction false} NoneMissed(m: Map, o: Options, id: int, exits: seq<Exit>, to: int)
    requires id in m && to in m && exits == Exits(m, o, id, |DIRECTIONS|)
    requires forall i :: 0 <= i < |exits| ==> !(exits[i].oneWay && exits[i].destinationId == to)
    ensures !OneWayTo(m, o, id, to)
  {
    forall d ensures !(ExitOf(m[id], d) == to && Listed(m, o, id, d) && OneWay(m, id, d)) {
      if Listed(m, o, id, d) {
        var k := ListedAreFound(m, o, id, |DIRECTIONS|, d);
      }
    }
  }

  class Builder {
    const m: Map
    const o: Options
    var lines: seq<Line>

    constructor (m: Map, o: Options)
      ensures this.m == m && this.o == o && lines == []
    {
      this.m, this.o, lines := m, o, [];
    }

    method HasOneWayExit(from: int, to: int) returns (found: bool)
      requires from in m && to in m
      ensures found <==> HasOneWayExitTo(m, from, to)
    {
      for i := 0 to |DIRECTIONS|
        invariant forall j :: 0 <= j < i ==>
                    !(ExitOf(m[from], DIRECTIONS[j]) == to && DIRECTIONS[j] !in m[from].customLines
                      && ExitOf(m[to], Reverse(DIRECTIONS[j])) != from)
      {
        var d := DIRECTIONS[i];
        if ExitOf(m[from], d) == to && d !in m[from].customLines && ExitOf(m[to], Reverse(d)) != from {
          return true;
        }
      }
      forall d ensures !(ExitOf(m[from], d) == to && d !in m[from].customLines && ExitOf(m[to], Reverse(d)) != from) {
        assert DIRECTIONS[PlaceOf(d)] == d;
      }
      return false;
    }

    method AddRoom(id: int)
      requires id in m
      modifies this`lines
      ensures lines == old(lines) + RoomLines(m, o, id, |DIRECTIONS|)
    {
      hide *;
      var exits := ListExits(id);
      ListedAreAll(m, o, id, |DIRECTIONS|);
      NoneListed(m, o, id, exits);
      for k := 0 to |exits|
        invariant lines == old(lines) + ListedLines(m, o, id, exits[..k])
      {
        ListedMore(m, o, id, exits, k);
        AddExit(id, exits, k);
      }
      assert exits[..|exits|] == exits;
    }

    method ListExits(id: int) returns (exits: seq<Exit>)
      requires id in m
      ensures exits == Exits(m, o, id, |DIRECTIONS|)
    {
      exits := [];
      for i := 0 to |DIRECTIONS|
        invariant exits == Exits(m, o, id, i)
      {
        var d := DIRECTIONS[i];
        if DrawnExit(m, id, d) && !(o.areaExitsOnly && m[ExitOf(m[id], d)].area == o.areaId) {
          var to := ExitOf(m[id], d);
          exits := exits + [Exit(d, to, ExitOf(m[to], Reverse(d)) != id)];
        }
      }
    }

    method AddExit(id: int, exits: seq<Exit>, k: nat)
      requires id in m && exits == Exits(m, o, id, |DIRECTIONS|) && k < |exits|
      modifies this`lines
      ensures lines == old(lines) + ExitLines(m, o, id, exits[k].direction)
    {
      var d, to, level := exits[k].direction, exits[k].destinationId, m[id].z;
      var inOrOut := d.In? || d.Out?;
      if m[to].area != o.areaId {
        if !inOrOut {
          lines := lines + [Line(AreaExit, id, d, to, level)];
        }
        return;
      }
      var lineLevel := NearerLevel(o, level, m[to].z);
      if inOrOut && o.inOutStubs {
        AddLine(Line(Stub, id, d, to, level));
        return;
      }
      var rise := m[to].z - m[id].z;
      var upOrDown := (d == Up && rise > 0) || (d == Down && rise < 0);
      if upOrDown && (m[to].x != m[id].x || m[to].y != m[id].y) {
        lines := lines + [Line(Shaft(exits[k].oneWay), id, d, to, level)];
        return;
      }
      var oneWayToDestination := AnyOneWayTo(id, exits, to);
      if !oneWayToDestination {
        var otherHasOneWay := HasOneWayExit(to, id);
        var otherEndDraws := DrawsExits(m, o, to) && Reverse(d) !in m[to].customLines && !otherHasOneWay;
        if otherEndDraws && to < id {
          return;
        }
        if upOrDown && o.dashedStairs {
          AddLine(Line(DashedStairs, id, d, to, lineLevel));
          return;
        }
        AddLine(Line(Solid, id, d, to, lineLevel));
        return;
      }
      AddLine(Line(Dotted, id, d, to, lineLevel));
    }

    method AnyOneWayTo(id: int, exits: seq<Exit>, to: int) returns (found: bool)
      requires id in m && to in m && exits == Exits(m, o, id, |DIRECTIONS|)
      ensures found <==> OneWayTo(m, o, id, to)
    {
      for j := 0 to |exits|
        invariant forall i :: 0 <= i < j ==> !(exits[i].oneWay && exits[i].destinationId == to)
      {
        if exits[j].oneWay && exits[j].destinationId == to {
          assert Listed(m, o, id, exits[j].direction);
          return true;
        }
      }
      NoneMissed(m, o, id, exits, to);
      return false;
    }

    /** A line between rooms in one place is not drawn. */
    method AddLine(l: Line)
      requires l.from in m && l.to in m
      modifies this`lines
      ensures lines == old(lines) + if Apart(m[l.from], m[l.to]) then [l] else []
    {
      if m[l.from].x == m[l.to].x && m[l.from].y == m[l.to].y && m[l.from].z == m[l.to].z {
        assert lines == lines + [];
        return;
      }
      lines := lines + [l];
    }
  }

  /** build(): the lines of the area's shown rooms. */
  method Build(m: Map, o: Options, rooms: seq<int>) returns (lines: seq<Line>)
    ensures lines == SceneLines(m, o, rooms)
  {
    var builder := new Builder(m, o);
    for i := 0 to |rooms|
      invariant builder.m == m && builder.o == o && builder.lines == SceneLines(m, o, rooms[..i])
    {
      assert rooms[..i + 1][..i] == rooms[..i];
      if rooms[i] !in m || m[rooms[i]].hidden || !LevelShown(o, m[rooms[i]].z) {
        assert builder.lines + [] == builder.lines;
        continue;
      }
      builder.AddRoom(rooms[i]);
    }
    assert rooms[..|rooms|] == rooms;
    lines := builder.lines;
  }
}
