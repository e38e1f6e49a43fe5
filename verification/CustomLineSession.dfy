/** Editing a custom line with snapping to the grid: the session remembers a line as it was before it was snapped. */
module CustomLineSession {
  import opened Collections
  import opened GridSnapping

  datatype LineKey = LineKey(roomId: int, exitKey: string)

  datatype OriginalLine = OriginalLine(key: LineKey, points: Line)

  /** What the session remembers, and the lines of the rooms there are. */
  datatype Session = Session(snapEnabled: bool, original: Option<OriginalLine>, lines: map<LineKey, Line>)

  /** restoreOriginalLineIfNeeded(), for the line being edited. */
  function RestoreIfNeeded(s: Session, key: Option<LineKey>): Session {
    if s.original == None then s
    else if key == None || key.value != s.original.value.key || key.value !in s.lines then s.(original := None)
    else s.(original := None, lines := s.lines[key.value := Restored(s.lines[key.value], s.original.value.points)])
  }

  /** setSnapToGridEnabled(). */
  function SetSnap(s: Session, key: Option<LineKey>, enabled: bool): Session {
    if s.snapEnabled == enabled then s
    else if !enabled then RestoreIfNeeded(s, key).(snapEnabled := false, original := None)
    else
      var r := RestoreIfNeeded(s, key);
      if key == None || key.value !in r.lines then r.(snapEnabled := true)
      else
        r.(snapEnabled := true, original := Some(OriginalLine(key.value, r.lines[key.value])),
           lines := r.lines[key.value := SnapLine(r.lines[key.value])])
  }

  // ---- whole sessions ----

  /** Snapping is switched, or the user edits lines or leaves one for another, or the line is finished with. */
  datatype Event = SwitchSnap(key: Option<LineKey>, enabled: bool) | Edit(lines: map<LineKey, Line>) | ClearOriginal

  function Happen(s: Session, e: Event): Session {
    match e
    case SwitchSnap(key, enabled) => SetSnap(s, key, enabled)
    case Edit(lines) => s.(lines := lines)
    case ClearOriginal => s.(original := None)
  }

  function Events(s: Session, es: seq<Event>): Session
    decreases |es|
  {
    if es == [] then s else Events(Happen(s, es[0]), es[1..])
  }

  /** Only a session that snaps remembers a line. */
  predicate Remembers(s: Session) {
    s.original.Some? ==> s.snapEnabled
  }

  lemma {:induction false} AlwaysRemembers(s: Session, es: seq<Event>)
    requires Remembers(s)
    ensures Remembers(Events(s, es))
    decreases |es|
  {
    if es != [] {
      AlwaysRemembers(Happen(s, es[0]), es[1..]);
    }
  }

  /** Switching snapping on and off again, whatever was done to other lines before, gives the line its points back, and
      each its own place unless one was in the way; nothing else changes. */
  lemma {:induction false} SnapOnThenOff(start: Session, es: seq<Event>, key: LineKey)
    requires Remembers(start) && !Events(start, es).snapEnabled && key in Events(start, es).lines
    ensures var s := Events(start, es);
            var r := SetSnap(SetSnap(s, Some(key), true), Some(key), false);
            && r == s.(lines := s.lines[key := r.lines[key]])
            && multiset(r.lines[key]) == multiset(s.lines[key])
            && (r == s <==> forall i, j :: !InTheWay(s.lines[key], i, j))
  {
    AlwaysRemembers(start, es);
    var s := Events(start, es);
    SnapOnThenOffIs(s, key);
    SnapThenRestorePermutes(s.lines[key]);
    SnapThenRestoreIsExactIff(s.lines[key]);
    SameLineSameSession(s, key, Restored(SnapLine(s.lines[key]), s.lines[key]));
  }

  lemma {:induction false} SnapOnThenOffIs(s: Session, key: LineKey)
    requires s.original == None && !s.snapEnabled && key in s.lines
    ensures SetSnap(SetSnap(s, Some(key), true), Some(key), false) ==
            s.(lines := s.lines[key := Restored(SnapLine(s.lines[key]), s.lines[key])])
  {
    var line := s.lines[key];
    var on := SetSnap(s, Some(key), true);
    assert on == Session(true, Some(OriginalLine(key, line)), s.lines[key := SnapLine(line)]);
    assert on.lines[key := Restored(SnapLine(line), line)] == s.lines[key := Restored(SnapLine(line), line)];
  }

  lemma {:induction false} SameLineSameSession(s: Session, key: LineKey, line: Line)
    requires key in s.lines
    ensures s.(lines := s.lines[key := line]) == s <==> line == s.lines[key]
  {
    if line == s.lines[key] {
      assert s.lines[key := line] == s.lines;
    } else {
      assert s.lines[key := line][key] == line;
    }
  }

  // ---- the session object ----

  class LineSession {
    var snapEnabled: bool
    var original: Option<OriginalLine>
    var lines: map<LineKey, Line>
    /** The selected line, and the room and exit a line is being drawn from. */
    var selectedRoom: int
    var selectedExit: string
    var roomFrom: int
    var roomExit: string

    constructor (lines: map<LineKey, Line>)
      ensures State() == Session(false, None, lines) && CurrentLineKey() == None
    {
      snapEnabled, original, this.lines := false, None, lines;
      selectedRoom, selectedExit, roomFrom, roomExit := 0, "", 0, "";
    }

    function State(): Session
      reads this
    {
      Session(snapEnabled, original, lines)
    }

    function CurrentLineKey(): (r: Option<LineKey>)
      reads this
      ensures r.Some? ==> r.value.roomId > 0 && r.value.exitKey != ""
    {
      if selectedRoom > 0 && selectedExit != "" then Some(LineKey(selectedRoom, selectedExit))
      else if roomFrom > 0 && roomExit != "" then Some(LineKey(roomFrom, roomExit))
      else None
    }

    method SetSnapToGridEnabled(enabled: bool)
      modifies this`snapEnabled, this`original, this`lines
      ensures State() == SetSnap(old(State()), CurrentLineKey(), enabled)
    {
      if snapEnabled == enabled {
        return;
      }
      if enabled {
        RestoreOriginalLineIfNeeded();
        var key := CurrentLineKey();
        if key == None || key.value !in lines {
          snapEnabled := enabled;
          return;
        }
        original := Some(OriginalLine(key.value, lines[key.value]));
        SnapLineToGrid(key.value);
      } else {
        RestoreOriginalLineIfNeeded();
        snapEnabled := enabled;
        original := None;
        return;
      }
      snapEnabled := enabled;
    }

    method SnapLineToGrid(key: LineKey)
      requires key in lines
      modifies this`lines
      ensures lines == old(lines)[key := SnapLine(old(lines)[key])]
    {
      var points := lines[key];
      for i := 0 to |points|
        invariant |points| == |old(lines)[key]| && lines == old(lines)
        invariant forall j :: 0 <= j < |points| ==> points[j] == if j < i then SnapPoint(old(lines)[key][j]) else old(lines)[key][j]
      {
        var snapped := Snap(points[i]);
        if !Negligible(points[i].x - snapped.x) || !Negligible(points[i].y - snapped.y) {
          points := points[i := snapped];
        }
      }
      assert points == SnapLine(old(lines)[key]);
      lines := lines[key := points];
    }

    method RestoreOriginalLineIfNeeded()
      modifies this`original, this`lines
      ensures State() == RestoreIfNeeded(old(State()), CurrentLineKey())
    {
      if original == None {
        return;
      }
      var key := CurrentLineKey();
      if key == None || original.value.key != key.value {
        original := None;
        return;
      }
      if key.value !in lines {
        original := None;
        return;
      }
      var points := RestorePoints(lines[key.value], original.value.points);
      original := None;
      lines := lines[key.value := points];
    }
  }

  /** The two passes over the points of a line. */
  method RestorePoints(line: Line, originals: Line) returns (points: Line)
    ensures points == Restored(line, originals)
  {
    points := line;
    var unclaimed, moved := ClaimOriginals(points, originals);
    ghost var u := unclaimed;
    for m := 0 to |moved|
      invariant |points| == |line| && (points, unclaimed) == Returning(line, moved, u, m)
    {
      var found := FindSnapping(unclaimed, points[moved[m]]);
      if found == |unclaimed| {
        continue;
      }
      points := points[moved[m] := unclaimed[found]];
      unclaimed := WithoutAt(unclaimed, found);
    }
  }

  /** Points snapping left alone take their originals out of the list; the others are noted. */
  method ClaimOriginals(points: Line, originals: Line) returns (unclaimed: Line, moved: seq<nat>)
    ensures unclaimed == Unclaimed(points, originals, |points|) && moved == Moved(points, originals, |points|)
  {
    hide *;
    NoneClaimedYet(points, originals);
    unclaimed, moved := originals, [];
    for index := 0 to |points|
      invariant unclaimed == Unclaimed(points, originals, index) && moved == Moved(points, originals, index)
    {
      UnclaimedMoves(points, originals, index + 1);
      ClaimMoves(points, originals, index + 1);
      var at := Find(unclaimed, points[index]);
      if at < |unclaimed| {
        unclaimed := WithoutAt(unclaimed, at);
      } else {
        moved := moved + [index];
      }
    }
  }

  lemma {:induction false} NoneClaimedYet(points: Line, originals: Line)
    ensures Unclaimed(points, originals, 0) == originals && Moved(points, originals, 0) == []
  {
  }
}
