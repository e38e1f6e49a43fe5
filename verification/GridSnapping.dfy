/** Snapping the points of a custom line to the grid and putting them back. Coordinates are exact numbers, and two points
    are equal when their coordinates are. */
module GridSnapping {

  datatype Point = Point(x: real, y: real)

  type Line = seq<Point>

  const SNAP_INCREMENT := 0.5
  /** A difference Qt takes for no difference. */
  const FUZZ := 0.000000000001

  // ---- snapping ----

  /** To the nearest whole number, halves away from zero, as std::round() does. */
  function Round(t: real): int {
    if t >= 0.0 then (t + 0.5).Floor else -((-t + 0.5).Floor)
  }

  function SnapCoordinate(c: real): real {
    Round(c / SNAP_INCREMENT) as real * SNAP_INCREMENT
  }

  function Snap(p: Point): Point {
    Point(SnapCoordinate(p.x), SnapCoordinate(p.y))
  }

  predicate OnGrid(p: Point) {
    Snap(p) == p
  }

  predicate Negligible(d: real) {
    -FUZZ <= d <= FUZZ
  }

  /** Too near the grid for snapping to move it. */
  predicate LeftAlone(p: Point) {
    Negligible(p.x - Snap(p).x) && Negligible(p.y - Snap(p).y)
  }

  function SnapPoint(p: Point): Point {
    if LeftAlone(p) then p else Snap(p)
  }

  function SnapLine(points: Line): (r: Line)
    ensures |r| == |points| && forall i :: 0 <= i < |r| ==> r[i] == SnapPoint(points[i])
  {
    seq(|points|, i requires 0 <= i < |points| => SnapPoint(points[i]))
  }

  lemma {:induction false} SnappedStaysPut(c: real)
    ensures SnapCoordinate(SnapCoordinate(c)) == SnapCoordinate(c)
    ensures -0.25 <= SnapCoordinate(c) - c <= 0.25
  {
    var n := Round(c / SNAP_INCREMENT);
    assert SnapCoordinate(c) / SNAP_INCREMENT == n as real;
    assert Round(n as real) == n;
  }

  /** Snapping twice is snapping once, and a snapped point is on the grid within a quarter of a room's spacing. */
  lemma {:induction false} SnapIsOnGrid(p: Point)
    ensures OnGrid(Snap(p)) && Snap(SnapPoint(p)) == Snap(p)
    ensures -0.25 <= Snap(p).x - p.x <= 0.25 && -0.25 <= Snap(p).y - p.y <= 0.25
    ensures OnGrid(p) ==> LeftAlone(p)
  {
    SnappedStaysPut(p.x);
    SnappedStaysPut(p.y);
  }

  // ---- putting back: points snapping left alone claim their originals ----

  function Find(s: Line, p: Point): (i: nat)
    ensures i <= |s| && (i < |s| <==> p in s)
    ensures i < |s| ==> s[i] == p && p !in s[..i]
  {
    if s == [] then 0 else if s[0] == p then 0 else
      assert s == [s[0]] + s[1..];
      Find(s[1..], p) + 1
  }

  function WithoutAt(s: Line, i: nat): Line
    requires i < |s|
  {
    s[..i] + s[i + 1..]
  }

  /** The originals not claimed by the first n points. */
  function Unclaimed(points: Line, originals: Line, n: nat): Line
    requires n <= |points|
  {
    if n == 0 then originals else
      var u := Unclaimed(points, originals, n - 1);
      var i := Find(u, points[n - 1]);
      if i < |u| then WithoutAt(u, i) else u
  }

  /** Those of the first n points that claimed none. */
  function Moved(points: Line, originals: Line, n: nat): (r: seq<nat>)
    requires n <= |points|
    ensures forall m :: 0 <= m < |r| ==> r[m] < n
    ensures forall m, k :: 0 <= m < k < |r| ==> r[m] < r[k]
  {
    if n == 0 then []
    else if points[n - 1] in Unclaimed(points, originals, n - 1) then Moved(points, originals, n - 1)
    else Moved(points, originals, n - 1) + [n - 1]
  }

  // ---- putting back: the other points take an original that snaps to them ----

  function FindSnapping(s: Line, p: Point): (i: nat)
    ensures i <= |s| && (i < |s| ==> Snap(s[i]) == p) && forall j :: 0 <= j < i ==> Snap(s[j]) != p
  {
    if s == [] then 0 else if Snap(s[0]) == p then 0 else FindSnapping(s[1..], p) + 1
  }

  /** The points, and the originals still unclaimed, after the first m of these points. */
  function Returning(points: Line, moved: seq<nat>, unclaimed: Line, m: nat): (r: (Line, Line))
    requires m <= |moved| && forall k :: 0 <= k < |moved| ==> moved[k] < |points|
    ensures |r.0| == |points|
  {
    if m == 0 then (points, unclaimed) else
      var before := Returning(points, moved, unclaimed, m - 1);
      var i := FindSnapping(before.1, before.0[moved[m - 1]]);
      if i < |before.1| then (before.0[moved[m - 1] := before.1[i]], WithoutAt(before.1, i)) else before
  }

  /** The line put back. */
  function Restored(points: Line, originals: Line): (r: Line)
    ensures |r| == |points|
  {
    var moved := Moved(points, originals, |points|);
    Returning(points, moved, Unclaimed(points, originals, |points|), |moved|).0
  }

  /** The originals that no point claimed or took. */
  function Leftover(points: Line, originals: Line): Line {
    var moved := Moved(points, originals, |points|);
    Returning(points, moved, Unclaimed(points, originals, |points|), |moved|).1
  }

  // ---- whatever the user did in between ----

  /** The points of the line put back that are originals: claimed ones and returned ones. */
  function Taken(restored: Line, points: Line, moved: seq<nat>, n: nat): Line
    requires n <= |points| == |restored|
  {
    if n == 0 then []
    else if n - 1 in moved && restored[n - 1] == points[n - 1] then Taken(restored, points, moved, n - 1)
    else Taken(restored, points, moved, n - 1) + [restored[n - 1]]
  }

  lemma {:induction false} Without(s: Line, i: nat)
    requires i < |s|
    ensures multiset(s) == multiset(WithoutAt(s, i)) + multiset{s[i]}
  {
    assert s == s[..i] + [s[i]] + s[i + 1..];
  }

  lemma {:induction false} MovedOnes(points: Line, originals: Line, n: nat, i: nat)
    requires n <= |points|
    ensures i in Moved(points, originals, n) <==> i < n && points[i] !in Unclaimed(points, originals, i)
    decreases n
  {
    if n > 0 {
      MovedOnes(points, originals, n - 1, i);
      ClaimMoves(points, originals, n);
    }
  }

  lemma {:induction false} TakenSame(restored: Line, points: Line, moved: seq<nat>, moved': seq<nat>, n: nat)
    requires n <= |points| == |restored| && forall i :: 0 <= i < n ==> (i in moved <==> i in moved')
    ensures Taken(restored, points, moved, n) == Taken(restored, points, moved', n)
    decreases n
  {
    if n > 0 {
      TakenSame(restored, points, moved, moved', n - 1);
    }
  }

  /** Each original is either taken or still to be had. */
  ghost predicate Accounted(originals: Line, taken: Line, unclaimed: Line) {
    multiset(originals) == multiset(taken) + multiset(unclaimed)
  }

  /** Claiming takes each original at most once. */
  lemma {:induction false} ClaimsConserve(points: Line, originals: Line, n: nat)
    requires n <= |points|
    ensures Accounted(originals, Taken(points, points, Moved(points, originals, n), n), Unclaimed(points, originals, n))
    decreases n
  {
    if n == 0 {
      NoneClaimed(points, originals);
    } else {
      ClaimsConserve(points, originals, n - 1);
      ClaimConserves(points, originals, n);
    }
  }

  lemma {:induction false} NoneClaimed(points: Line, originals: Line)
    ensures Accounted(originals, Taken(points, points, Moved(points, originals, 0), 0), Unclaimed(points, originals, 0))
  {
    assert multiset(originals) == multiset([]) + multiset(originals);
  }

  lemma {:induction false} ClaimConserves(points: Line, originals: Line, n: nat)
    requires 0 < n <= |points|
    requires Accounted(originals, Taken(points, points, Moved(points, originals, n - 1), n - 1), Unclaimed(points, originals, n - 1))
    ensures Accounted(originals, Taken(points, points, Moved(points, originals, n), n), Unclaimed(points, originals, n))
  {
    hide *;
    ClaimTaken(points, originals, n);
    var u, t := Unclaimed(points, originals, n - 1), Taken(points, points, Moved(points, originals, n - 1), n - 1);
    var i := Find(u, points[n - 1]);
    if i < |u| {
      ClaimedOne(originals, t, u, i);
    }
  }

  lemma {:induction false} ClaimedOne(originals: Line, taken: Line, unclaimed: Line, i: nat)
    requires i < |unclaimed| && Accounted(originals, taken, unclaimed)
    ensures Accounted(originals, taken + [unclaimed[i]], WithoutAt(unclaimed, i))
  {
    Without(unclaimed, i);
  }

  lemma {:induction false} ClaimTaken(points: Line, originals: Line, n: nat)
    requires 0 < n <= |points|
    ensures var u, t := Unclaimed(points, originals, n - 1), Taken(points, points, Moved(points, originals, n - 1), n - 1);
            if points[n - 1] in u then
              && Taken(points, points, Moved(points, originals, n), n) == t + [points[n - 1]]
              && Unclaimed(points, originals, n) == WithoutAt(u, Find(u, points[n - 1]))
            else
              && Taken(points, points, Moved(points, originals, n), n) == t
              && Unclaimed(points, originals, n) == u
  {
    hide *;
    ClaimMoves(points, originals, n);
    UnclaimedMoves(points, originals, n);
    var moved, moved' := Moved(points, originals, n - 1), Moved(points, originals, n);
    assert n - 1 !in moved;
    assert forall i :: i in moved' <==> i in moved || (i == n - 1 && points[n - 1] !in Unclaimed(points, originals, n - 1));
    TakenSame(points, points, moved, moved', n - 1);
    TakenMoves(points, moved', n);
  }

  lemma {:induction false} TakenMoves(points: Line, moved: seq<nat>, n: nat)
    requires 0 < n <= |points|
    ensures Taken(points, points, moved, n) ==
            if n - 1 in moved then Taken(points, points, moved, n - 1) else Taken(points, points, moved, n - 1) + [points[n - 1]]
  {
  }

  lemma {:induction false} UnclaimedMoves(points: Line, originals: Line, n: nat)
    requires 0 < n <= |points|
    ensures var u := Unclaimed(points, originals, n - 1);
            Unclaimed(points, originals, n) == if points[n - 1] in u then WithoutAt(u, Find(u, points[n - 1])) else u
  {
  }

  /** One more point given an original. */
  lemma {:induction false} TakenMore(restored: Line, points: Line, moved: seq<nat>, n: nat, at: nat, p: Point)
    requires at < |points| == |restored| && n <= |points|
    requires at in moved && restored[at] == points[at] && p != points[at]
    ensures multiset(Taken(restored[at := p], points, moved, n)) ==
            multiset(Taken(restored, points, moved, n)) + if at < n then multiset{p} else multiset{}
    decreases n
  {
    if n > 0 {
      TakenMore(restored, points, moved, n - 1, at, p);
    }
  }

  lemma {:induction false} UnclaimedShrinks(points: Line, originals: Line, i: nat, n: nat, p: Point)
    requires i <= n <= |points| && p in Unclaimed(points, originals, n)
    ensures p in Unclaimed(points, originals, i)
    decreases n
  {
    if i < n {
      UnclaimedShrinks(points, originals, i, n - 1, p);
    }
  }

  /** What the returns have done so far. */
  ghost predicate ReturnedSome(points: Line, originals: Line, moved: seq<nat>, m: nat, r: (Line, Line)) {
    && |r.0| == |points| && m <= |moved|
    && (forall i :: 0 <= i < |points| ==> r.0[i] == points[i] || (i in moved[..m] && Snap(r.0[i]) == points[i] && r.0[i] in originals))
    && Accounted(originals, Taken(r.0, points, moved, |points|), r.1)
    && (forall p :: p in r.1 ==> p in Unclaimed(points, originals, |points|))
    && (forall i :: 0 <= i < |points| && i in moved[..m] && r.0[i] == points[i] ==> forall p :: p in r.1 ==> Snap(p) != points[i])
  }

  lemma {:induction false} ReturnsConserve(points: Line, originals: Line, moved: seq<nat>, m: nat)
    requires moved == Moved(points, originals, |points|) && m <= |moved|
    ensures ReturnedSome(points, originals, moved, m, Returning(points, moved, Unclaimed(points, originals, |points|), m))
    decreases m
  {
    var u := Unclaimed(points, originals, |points|);
    if m == 0 {
      ClaimsConserve(points, originals, |points|);
    } else {
      ReturnsConserve(points, originals, moved, m - 1);
      var before := Returning(points, moved, u, m - 1);
      var i := FindSnapping(before.1, before.0[moved[m - 1]]);
      NotYet(points, originals, moved, m, before);
      if i < |before.1| {
        OneReturned(points, originals, moved, m, before, i);
      } else {
        NoneReturned(points, originals, moved, m, before);
      }
    }
  }

  lemma {:induction false} NotYet(points: Line, originals: Line, moved: seq<nat>, m: nat, before: (Line, Line))
    requires moved == Moved(points, originals, |points|) && 0 < m <= |moved| && ReturnedSome(points, originals, moved, m - 1, before)
    ensures moved[m - 1] < |points| && before.0[moved[m - 1]] == points[moved[m - 1]] && points[moved[m - 1]] !in before.1
    ensures forall i :: i in moved[..m] <==> i in moved[..m - 1] || i == moved[m - 1]
  {
    var at := moved[m - 1];
    assert at !in moved[..m - 1];
    assert moved[..m] == moved[..m - 1] + [at];
    MovedOnes(points, originals, |points|, at);
    if points[at] in before.1 {
      UnclaimedShrinks(points, originals, at, |points|, points[at]);
    }
  }

  lemma {:induction false} OneReturned(points: Line, originals: Line, moved: seq<nat>, m: nat, before: (Line, Line), i: nat)
    requires moved == Moved(points, originals, |points|) && 0 < m <= |moved| && ReturnedSome(points, originals, moved, m - 1, before)
    requires moved[m - 1] < |points| && before.0[moved[m - 1]] == points[moved[m - 1]] && points[moved[m - 1]] !in before.1
    requires forall i :: i in moved[..m] <==> i in moved[..m - 1] || i == moved[m - 1]
    requires i < |before.1| && Snap(before.1[i]) == points[moved[m - 1]]
    ensures ReturnedSome(points, originals, moved, m, (before.0[moved[m - 1] := before.1[i]], WithoutAt(before.1, i)))
  {
    var at, p := moved[m - 1], before.1[i];
    assert p in before.1;
    TakenMore(before.0, points, moved, |points|, at, p);
    Without(before.1, i);
    UnclaimedShrinks(points, originals, 0, |points|, p);
  }

  lemma {:induction false} NoneReturned(points: Line, originals: Line, moved: seq<nat>, m: nat, before: (Line, Line))
    requires moved == Moved(points, originals, |points|) && 0 < m <= |moved| && ReturnedSome(points, originals, moved, m - 1, before)
    requires moved[m - 1] < |points|
    requires forall i :: i in moved[..m] <==> i in moved[..m - 1] || i == moved[m - 1]
    requires forall p :: p in before.1 ==> Snap(p) != points[moved[m - 1]]
    ensures ReturnedSome(points, originals, moved, m, before)
  {
  }

  /** Whatever the user did to the line since it was snapped: a point changes only into an original that snaps to it,
      no original is used twice, and one left over snaps to no point that could have taken it. */
  lemma {:induction false} RestoringIsCautious(points: Line, originals: Line)
    ensures var restored, moved := Restored(points, originals), Moved(points, originals, |points|);
            && (forall i :: 0 <= i < |points| && restored[i] != points[i] ==>
                  i in moved && Snap(restored[i]) == points[i] && restored[i] in originals)
            && Accounted(originals, Taken(restored, points, moved, |points|), Leftover(points, originals))
            && (forall i, p :: 0 <= i < |points| && i in moved && restored[i] == points[i] && p in Leftover(points, originals) ==>
                  Snap(p) != points[i])
  {
    var moved := Moved(points, originals, |points|);
    ReturnsConserve(points, originals, moved, |moved|);
    assert moved[..|moved|] == moved;
  }

  // ---- nothing done in between: the points come back ----

  function Snaps(s: Line): (r: Line)
    ensures |r| == |s| && forall i :: 0 <= i < |r| ==> r[i] == Snap(s[i])
  {
    seq(|s|, i requires 0 <= i < |s| => Snap(s[i]))
  }

  function SnapsAt(points: Line, at: seq<nat>): (r: Line)
    requires forall k :: 0 <= k < |at| ==> at[k] < |points|
    ensures |r| == |at| && forall k :: 0 <= k < |at| ==> r[k] == Snap(points[at[k]])
  {
    seq(|at|, k requires 0 <= k < |at| => Snap(points[at[k]]))
  }

  lemma {:induction false} SnapsWithout(s: Line, i: nat)
    requires i < |s|
    ensures Snaps(WithoutAt(s, i)) == WithoutAt(Snaps(s), i)
    ensures multiset(Snaps(s)) == multiset(Snaps(WithoutAt(s, i))) + multiset{Snap(s[i])}
  {
    Without(Snaps(s), i);
    assert Snaps(WithoutAt(s, i)) == WithoutAt(Snaps(s), i);
  }

  /** In each grid cell there are as many unclaimed originals as points still without one. */
  ghost predicate Matched(unclaimed: Line, without: Line, ahead: Line) {
    multiset(Snaps(unclaimed)) == multiset(without) + multiset(Snaps(ahead))
  }

  lemma {:induction false} ClaimsMatch(points: Line, originals: Line, n: nat)
    requires n <= |points| && Snaps(points) == Snaps(originals)
    ensures Matched(Unclaimed(points, originals, n), SnapsAt(points, Moved(points, originals, n)), points[n..])
    decreases n
  {
    if n == 0 {
      assert points[0..] == points;
      assert SnapsAt(points, []) == [];
    } else {
      ClaimsMatch(points, originals, n - 1);
      ClaimMatches(points, originals, n);
    }
  }

  lemma {:induction false} ClaimMatches(points: Line, originals: Line, n: nat)
    requires 0 < n <= |points|
    requires Matched(Unclaimed(points, originals, n - 1), SnapsAt(points, Moved(points, originals, n - 1)), points[n - 1..])
    ensures Matched(Unclaimed(points, originals, n), SnapsAt(points, Moved(points, originals, n)), points[n..])
  {
    hide *;
    var u, moved := Unclaimed(points, originals, n - 1), Moved(points, originals, n - 1);
    var i := Find(u, points[n - 1]);
    ClaimTaken(points, originals, n);
    ClaimMoves(points, originals, n);
    if i < |u| {
      OneClaimed(u, SnapsAt(points, moved), points, n, i);
    } else {
      OneMoved(u, points, moved, n);
    }
  }

  lemma {:induction false} ClaimMoves(points: Line, originals: Line, n: nat)
    requires 0 < n <= |points|
    ensures Moved(points, originals, n) ==
            if points[n - 1] in Unclaimed(points, originals, n - 1) then Moved(points, originals, n - 1)
            else Moved(points, originals, n - 1) + [n - 1]
  {
  }

  lemma {:induction false} OneClaimed(unclaimed: Line, without: Line, points: Line, n: nat, i: nat)
    requires 0 < n <= |points| && i < |unclaimed| && unclaimed[i] == points[n - 1]
    requires Matched(unclaimed, without, points[n - 1..])
    ensures Matched(WithoutAt(unclaimed, i), without, points[n..])
  {
    hide *;
    OneLess(unclaimed, i);
    OneLess(points[n - 1..], 0);
    Rest(points, n);
    MatchedIs(unclaimed, without, points[n - 1..]);
    MatchedIs(WithoutAt(unclaimed, i), without, points[n..]);
  }

  lemma {:induction false} OneLess(s: Line, i: nat)
    requires i < |s|
    ensures multiset(Snaps(WithoutAt(s, i))) == multiset(Snaps(s)) - multiset{Snap(s[i])} && Snap(s[i]) in multiset(Snaps(s))
  {
    SnapsWithout(s, i);
  }

  lemma {:induction false} Rest(points: Line, n: nat)
    requires 0 < n <= |points|
    ensures WithoutAt(points[n - 1..], 0) == points[n..] && points[n - 1..][0] == points[n - 1]
  {
  }

  lemma {:induction false} MatchedIs(unclaimed: Line, without: Line, ahead: Line)
    ensures Matched(unclaimed, without, ahead) <==> multiset(Snaps(unclaimed)) == multiset(without) + multiset(Snaps(ahead))
  {
  }

  lemma {:induction false} OneMoved(unclaimed: Line, points: Line, moved: seq<nat>, n: nat)
    requires 0 < n <= |points| && forall k :: 0 <= k < |moved| ==> moved[k] < |points|
    requires Matched(unclaimed, SnapsAt(points, moved), points[n - 1..])
    ensures Matched(unclaimed, SnapsAt(points, moved + [n - 1]), points[n..])
  {
    SnapsWithout(points[n - 1..], 0);
    assert WithoutAt(points[n - 1..], 0) == points[n..];
    assert SnapsAt(points, moved + [n - 1]) == SnapsAt(points, moved) + [Snap(points[n - 1])];
  }

  function Count(s: Line, p: Point): (n: nat)
    ensures n > 0 <==> p in s
  {
    multiset(s)[p]
  }

  lemma {:induction false} Counted(s: Line, i: nat, p: Point)
    requires i < |s|
    ensures Count(WithoutAt(s, i), p) == Count(s, p) - if s[i] == p then 1 else 0
  {
    Without(s, i);
  }

  /** A point that snapping left alone off the grid finds its original. */
  lemma {:induction false} OffGridClaims(originals: Line, n: nat, p: Point)
    requires n <= |originals| && !OnGrid(p)
    ensures Count(Unclaimed(SnapLine(originals), originals, n), p) >= Count(SnapLine(originals)[n..], p)
    decreases n
  {
    if n == 0 {
      OffGridStayed(originals, p, |originals|);
      assert SnapLine(originals)[0..] == SnapLine(originals)[..|originals|] && originals[..|originals|] == originals;
    } else {
      OffGridClaims(originals, n - 1, p);
      CountedOn(SnapLine(originals), originals, n, p);
    }
  }

  lemma {:induction false} CountedOn(points: Line, originals: Line, n: nat, p: Point)
    requires 0 < n <= |points| && Count(Unclaimed(points, originals, n - 1), p) >= Count(points[n - 1..], p)
    ensures Count(Unclaimed(points, originals, n), p) >= Count(points[n..], p)
  {
    hide *;
    ClaimTaken(points, originals, n);
    Rest(points, n);
    Counted(points[n - 1..], 0, p);
    var u := Unclaimed(points, originals, n - 1);
    if points[n - 1] in u {
      Counted(u, Find(u, points[n - 1]), p);
    }
  }

  lemma {:induction false} OffGridStayed(originals: Line, p: Point, n: nat)
    requires n <= |originals| && !OnGrid(p)
    ensures Count(originals[..n], p) >= Count(SnapLine(originals)[..n], p)
    decreases n
  {
    var points := SnapLine(originals);
    if n > 0 {
      OffGridStayed(originals, p, n - 1);
      assert originals[..n] == originals[..n - 1] + [originals[n - 1]];
      assert points[..n] == points[..n - 1] + [points[n - 1]];
      SnapIsOnGrid(originals[n - 1]);
    }
  }

  lemma {:induction false} OffGridIsClaimed(originals: Line, i: nat)
    requires i < |originals| && !OnGrid(SnapLine(originals)[i])
    ensures SnapLine(originals)[i] in Unclaimed(SnapLine(originals), originals, i)
  {
    var points := SnapLine(originals);
    OffGridClaims(originals, i, points[i]);
    assert points[i..][0] == points[i];
  }

  lemma {:induction false} MovedAreOnGrid(originals: Line, i: nat)
    requires i in Moved(SnapLine(originals), originals, |originals|)
    ensures i < |originals| && OnGrid(SnapLine(originals)[i])
  {
    MovedOnes(SnapLine(originals), originals, |originals|, i);
    if !OnGrid(SnapLine(originals)[i]) {
      OffGridIsClaimed(originals, i);
    }
  }

  lemma {:induction false} ReturnsMatch(originals: Line, m: nat)
    requires m <= |Moved(SnapLine(originals), originals, |originals|)|
    ensures var points := SnapLine(originals);
            var moved := Moved(points, originals, |originals|);
            var r := Returning(points, moved, Unclaimed(points, originals, |originals|), m);
            multiset(Snaps(r.1)) == multiset(SnapsAt(points, moved[m..]))
    decreases m
  {
    if m == 0 {
      AllMatch(originals);
    } else {
      ReturnsMatch(originals, m - 1);
      NextMatches(originals, m);
    }
  }

  lemma {:induction false} AllMatch(originals: Line)
    ensures var points := SnapLine(originals);
            var moved := Moved(points, originals, |originals|);
            var r := Returning(points, moved, Unclaimed(points, originals, |originals|), 0);
            multiset(Snaps(r.1)) == multiset(SnapsAt(points, moved[0..]))
  {
    var points := SnapLine(originals);
    var moved := Moved(points, originals, |originals|);
    SnapLineSnaps(originals);
    ClaimsMatch(points, originals, |originals|);
    assert moved[0..] == moved && Snaps(points[|originals|..]) == [];
  }

  lemma {:induction false} NextMatches(originals: Line, m: nat)
    requires 0 < m <= |Moved(SnapLine(originals), originals, |originals|)|
    requires var points := SnapLine(originals);
             var moved := Moved(points, originals, |originals|);
             var r := Returning(points, moved, Unclaimed(points, originals, |originals|), m - 1);
             multiset(Snaps(r.1)) == multiset(SnapsAt(points, moved[m - 1..]))
    ensures var points := SnapLine(originals);
            var moved := Moved(points, originals, |originals|);
            var r := Returning(points, moved, Unclaimed(points, originals, |originals|), m);
            multiset(Snaps(r.1)) == multiset(SnapsAt(points, moved[m..]))
  {
    hide *;
    var points := SnapLine(originals);
    var moved := Moved(points, originals, |originals|);
    var u := Unclaimed(points, originals, |originals|);
    MovedAreOnGrid(originals, moved[m - 1]);
    ReturnsConserve(points, originals, moved, m - 1);
    NotYet(points, originals, moved, m, Returning(points, moved, u, m - 1));
    ReturnMatches(points, moved, u, m);
  }

  lemma {:induction false} ReturnMatches(points: Line, moved: seq<nat>, unclaimed: Line, m: nat)
    requires 0 < m <= |moved| && forall k :: 0 <= k < |moved| ==> moved[k] < |points|
    requires OnGrid(points[moved[m - 1]])
    requires Returning(points, moved, unclaimed, m - 1).0[moved[m - 1]] == points[moved[m - 1]]
    requires multiset(Snaps(Returning(points, moved, unclaimed, m - 1).1)) == multiset(SnapsAt(points, moved[m - 1..]))
    ensures multiset(Snaps(Returning(points, moved, unclaimed, m).1)) == multiset(SnapsAt(points, moved[m..]))
  {
    hide *;
    ReturnIs(points, moved, unclaimed, m);
    NextSnap(points, moved, m);
    OneMatched(Returning(points, moved, unclaimed, m - 1).1, points[moved[m - 1]], SnapsAt(points, moved[m..]));
  }

  lemma {:induction false} ReturnIs(points: Line, moved: seq<nat>, unclaimed: Line, m: nat)
    requires 0 < m <= |moved| && forall k :: 0 <= k < |moved| ==> moved[k] < |points|
    ensures var before := Returning(points, moved, unclaimed, m - 1);
            var i := FindSnapping(before.1, before.0[moved[m - 1]]);
            && (i < |before.1| ==> Returning(points, moved, unclaimed, m).1 == WithoutAt(before.1, i))
            && (i < |before.1| ==> Returning(points, moved, unclaimed, m).0 == before.0[moved[m - 1] := before.1[i]])
  {
  }

  lemma {:induction false} NextSnap(points: Line, moved: seq<nat>, m: nat)
    requires 0 < m <= |moved| && forall k :: 0 <= k < |moved| ==> moved[k] < |points|
    requires OnGrid(points[moved[m - 1]])
    ensures SnapsAt(points, moved[m - 1..]) == [points[moved[m - 1]]] + SnapsAt(points, moved[m..])
  {
  }

  lemma {:induction false} OneMatched(unclaimed: Line, p: Point, rest: Line)
    requires multiset(Snaps(unclaimed)) == multiset([p] + rest)
    ensures var i := FindSnapping(unclaimed, p);
            i < |unclaimed| && multiset(Snaps(WithoutAt(unclaimed, i))) == multiset(rest)
  {
    hide *;
    HeadIn(p, rest);
    if FindSnapping(unclaimed, p) == |unclaimed| {
      NoneSnaps(unclaimed, p);
    }
    OneLess(unclaimed, FindSnapping(unclaimed, p));
  }

  lemma {:induction false} HeadIn(p: Point, rest: Line)
    ensures multiset([p] + rest) == multiset{p} + multiset(rest) && p in multiset([p] + rest)
  {
  }

  lemma {:induction false} NoneSnaps(s: Line, p: Point)
    requires FindSnapping(s, p) == |s|
    ensures p !in multiset(Snaps(s))
  {
    assert p !in Snaps(s);
  }

  lemma {:induction false} SnapLineSnaps(originals: Line)
    ensures Snaps(SnapLine(originals)) == Snaps(originals)
  {
    forall i | 0 <= i < |originals| ensures Snap(SnapLine(originals)[i]) == Snap(originals[i]) {
      SnapIsOnGrid(originals[i]);
    }
  }

  lemma {:induction false} AllTaken(restored: Line, points: Line, moved: seq<nat>, n: nat)
    requires n <= |points| == |restored|
    ensures |Taken(restored, points, moved, n)| <= n
    ensures |Taken(restored, points, moved, n)| == n ==> Taken(restored, points, moved, n) == restored[..n]
    decreases n
  {
    if n > 0 {
      AllTaken(restored, points, moved, n - 1);
    }
  }

  /** Snapping and putting back at once: the same points, each where a point of its grid cell was. */
  lemma {:induction false} SnapThenRestorePermutes(originals: Line)
    ensures var restored := Restored(SnapLine(originals), originals);
            && multiset(restored) == multiset(originals) && |restored| == |originals|
            && forall i :: 0 <= i < |originals| ==> Snap(restored[i]) == Snap(originals[i])
  {
    var points := SnapLine(originals);
    var restored, moved := Restored(points, originals), Moved(points, originals, |originals|);
    ReturnsMatch(originals, |moved|);
    assert SnapsAt(points, moved[|moved|..]) == [];
    assert |Snaps(Leftover(points, originals))| == |multiset(Snaps(Leftover(points, originals)))| == 0;
    RestoringIsCautious(points, originals);
    NothingLeft(originals, Taken(restored, points, moved, |points|), Leftover(points, originals));
    AllTaken(restored, points, moved, |points|);
    assert restored[..|points|] == restored;
    forall i | 0 <= i < |originals| ensures Snap(restored[i]) == Snap(originals[i]) {
      SnapIsOnGrid(originals[i]);
      SnapIsOnGrid(restored[i]);
    }
  }

  lemma {:induction false} NothingLeft(originals: Line, taken: Line, left: Line)
    requires Accounted(originals, taken, left) && left == []
    ensures multiset(originals) == multiset(taken) && |taken| == |originals|
  {
    assert |multiset(originals)| == |multiset(taken)|;
  }

  // ---- when each point comes back to its own place ----

  /** A point that snapping moves comes before one that stands where it is moved to. */
  predicate InTheWay(originals: Line, i: nat, j: nat) {
    i < j < |originals| && !LeftAlone(originals[i]) && originals[j] == Snap(originals[i])
  }

  function MovedOriginals(originals: Line, n: nat): (r: Line)
    requires n <= |originals|
    ensures forall k :: 0 <= k < |r| ==> !LeftAlone(r[k])
  {
    if n == 0 then []
    else if LeftAlone(originals[n - 1]) then MovedOriginals(originals, n - 1)
    else MovedOriginals(originals, n - 1) + [originals[n - 1]]
  }

  /** With nothing in the way, the points left alone claim just themselves. */
  ghost predicate OwnClaims(originals: Line, n: nat)
    requires n <= |originals|
  {
    var moved := Moved(SnapLine(originals), originals, n);
    && Unclaimed(SnapLine(originals), originals, n) == MovedOriginals(originals, n) + originals[n..]
    && |moved| == |MovedOriginals(originals, n)|
    && (forall k :: 0 <= k < |moved| ==> MovedOriginals(originals, n)[k] == originals[moved[k]])
    && (forall i :: 0 <= i < n && i !in moved ==> LeftAlone(originals[i]))
  }

  lemma {:induction false} ClaimsOwn(originals: Line, n: nat)
    requires n <= |originals| && forall i: nat, j: nat :: i < n ==> !InTheWay(originals, i, j)
    ensures OwnClaims(originals, n)
    decreases n
  {
    hide *;
    if n == 0 {
      NoClaims(originals);
    } else {
      ClaimsOwn(originals, n - 1);
      if LeftAlone(originals[n - 1]) {
        ClaimsItself(originals, n - 1);
      } else {
        ClaimsNone(originals, n - 1);
      }
    }
  }

  lemma {:induction false} NoClaims(originals: Line)
    ensures OwnClaims(originals, 0)
  {
  }

  lemma {:induction false} ClaimsItself(originals: Line, i: nat)
    requires i < |originals| && LeftAlone(originals[i]) && OwnClaims(originals, i)
    ensures OwnClaims(originals, i + 1)
  {
    var points, before := SnapLine(originals), MovedOriginals(originals, i);
    var u := Unclaimed(points, originals, i);
    assert u[|before|] == originals[i];
    assert Find(u, originals[i]) == |before|;
    assert WithoutAt(u, |before|) == before + originals[i + 1..];
  }

  lemma {:induction false} ClaimsNone(originals: Line, i: nat)
    requires i < |originals| && !LeftAlone(originals[i]) && OwnClaims(originals, i)
    requires forall j: nat :: !InTheWay(originals, i, j)
    ensures OwnClaims(originals, i + 1)
  {
    hide *;
    NotAmong(originals, i);
    ClaimTaken(SnapLine(originals), originals, i + 1);
    ClaimMoves(SnapLine(originals), originals, i + 1);
    MovedOriginalsGrow(originals, i);
    OwnClaimsGrow(originals, i);
  }

  lemma {:induction false} MovedOriginalsGrow(originals: Line, i: nat)
    requires i < |originals| && !LeftAlone(originals[i])
    ensures MovedOriginals(originals, i + 1) == MovedOriginals(originals, i) + [originals[i]]
  {
  }

  lemma {:induction false} OwnClaimsGrow(originals: Line, i: nat)
    requires i < |originals| && OwnClaims(originals, i)
    requires Unclaimed(SnapLine(originals), originals, i + 1) == Unclaimed(SnapLine(originals), originals, i)
    requires Moved(SnapLine(originals), originals, i + 1) == Moved(SnapLine(originals), originals, i) + [i]
    requires MovedOriginals(originals, i + 1) == MovedOriginals(originals, i) + [originals[i]]
    ensures OwnClaims(originals, i + 1)
  {
    hide Unclaimed, SnapLine, Moved, MovedOriginals;
    Regroup(MovedOriginals(originals, i), originals, i);
    var moved := Moved(SnapLine(originals), originals, i);
    assert forall k :: k in moved + [i] <==> k in moved || k == i;
  }

  lemma {:induction false} Regroup(a: Line, s: Line, i: nat)
    requires i < |s|
    ensures a + s[i..] == (a + [s[i]]) + s[i + 1..]
  {
  }

  lemma {:induction false} NotAmong(originals: Line, i: nat)
    requires i < |originals| && !LeftAlone(originals[i]) && OwnClaims(originals, i)
    requires forall j: nat :: !InTheWay(originals, i, j)
    ensures SnapLine(originals)[i] == Snap(originals[i])
    ensures Snap(originals[i]) !in Unclaimed(SnapLine(originals), originals, i)
  {
    var before, u := MovedOriginals(originals, i), Unclaimed(SnapLine(originals), originals, i);
    SnapIsOnGrid(originals[i]);
    SnapIsOnGrid(Snap(originals[i]));
    forall k | 0 <= k < |u| ensures u[k] != Snap(originals[i]) {
      if k >= |before| {
        var j := i + k - |before|;
        assert u[k] == originals[j] && !InTheWay(originals, i, j);
      }
    }
  }

  ghost predicate OwnReturns(originals: Line, m: nat)
    requires m <= |Moved(SnapLine(originals), originals, |originals|)|
  {
    var points := SnapLine(originals);
    var moved := Moved(points, originals, |originals|);
    var r := Returning(points, moved, Unclaimed(points, originals, |originals|), m);
    && m <= |MovedOriginals(originals, |originals|)| && r.1 == MovedOriginals(originals, |originals|)[m..]
    && PutBack(r.0, originals, points, moved[..m])
  }

  /** These points are the originals again, and the others as snapped. */
  predicate PutBack(line: Line, originals: Line, points: Line, at: seq<nat>) {
    && |line| == |originals| == |points|
    && forall i :: 0 <= i < |line| ==> line[i] == if i in at then originals[i] else points[i]
  }

  lemma {:induction false} OneMorePutBack(line: Line, originals: Line, points: Line, at: seq<nat>, i: nat)
    requires PutBack(line, originals, points, at) && i < |line|
    ensures PutBack(line[i := originals[i]], originals, points, at + [i])
  {
  }

  /** Then each moved point takes its own original. */
  lemma {:induction false} ReturnsOwn(originals: Line, m: nat)
    requires OwnClaims(originals, |originals|) && m <= |Moved(SnapLine(originals), originals, |originals|)|
    ensures OwnReturns(originals, m)
    decreases m
  {
    if m > 0 {
      ReturnsOwn(originals, m - 1);
      ReturnsNext(originals, m);
    }
  }

  lemma {:induction false} ReturnsNext(originals: Line, m: nat)
    requires OwnClaims(originals, |originals|) && 0 < m <= |Moved(SnapLine(originals), originals, |originals|)|
    requires OwnReturns(originals, m - 1)
    ensures OwnReturns(originals, m)
  {
    hide *;
    var points := SnapLine(originals);
    var moved := Moved(points, originals, |originals|);
    var u, mine := Unclaimed(points, originals, |originals|), MovedOriginals(originals, |originals|);
    OwnNext(originals, m);
    HeadOff(mine, m);
    ReturnIs(points, moved, u, m);
    OwnReturnsAre(originals, m);
  }

  lemma {:induction false} OwnNext(originals: Line, m: nat)
    requires OwnClaims(originals, |originals|) && 0 < m <= |Moved(SnapLine(originals), originals, |originals|)|
    requires OwnReturns(originals, m - 1)
    ensures var points := SnapLine(originals);
            var moved, mine := Moved(points, originals, |originals|), MovedOriginals(originals, |originals|);
            var before := Returning(points, moved, Unclaimed(points, originals, |originals|), m - 1);
            && |mine| == |moved| && moved[m - 1] < |originals| && before.1 == mine[m - 1..]
            && before.0[moved[m - 1]] == Snap(mine[m - 1]) && before.1[0] == originals[moved[m - 1]]
  {
    var moved := Moved(SnapLine(originals), originals, |originals|);
    assert moved[m - 1] !in moved[..m - 1];
  }

  lemma {:induction false} OwnReturnsAre(originals: Line, m: nat)
    requires 0 < m <= |Moved(SnapLine(originals), originals, |originals|)| && OwnReturns(originals, m - 1)
    requires var points := SnapLine(originals);
             var moved, mine := Moved(points, originals, |originals|), MovedOriginals(originals, |originals|);
             var before := Returning(points, moved, Unclaimed(points, originals, |originals|), m - 1);
             var after := Returning(points, moved, Unclaimed(points, originals, |originals|), m);
             && m <= |mine| && after.1 == mine[m..] && moved[m - 1] < |originals|
             && after.0 == before.0[moved[m - 1] := originals[moved[m - 1]]]
    ensures OwnReturns(originals, m)
  {
    hide Returning, Unclaimed, SnapLine, Moved, MovedOriginals;
    var points := SnapLine(originals);
    var moved := Moved(points, originals, |originals|);
    OneMorePutBack(Returning(points, moved, Unclaimed(points, originals, |originals|), m - 1).0, originals, points,
                   moved[..m - 1], moved[m - 1]);
    assert moved[..m] == moved[..m - 1] + [moved[m - 1]];
  }

  lemma {:induction false} HeadOff(s: Line, m: nat)
    requires 0 < m <= |s|
    ensures FindSnapping(s[m - 1..], Snap(s[m - 1])) == 0 && WithoutAt(s[m - 1..], 0) == s[m..]
  {
  }

  /** A point in the way takes the place that is its own grid point, and the moved one stays moved. */
  lemma {:induction false} InTheWayShows(originals: Line, i: nat, j: nat)
    requires InTheWay(originals, i, j)
    ensures Restored(SnapLine(originals), originals) != originals
    decreases i
  {
    if earlier: nat, later: nat :| earlier < i && InTheWay(originals, earlier, later) {
      InTheWayShows(originals, earlier, later);
    } else {
      var points := SnapLine(originals);
      ClaimsOwn(originals, i);
      assert points[i] == originals[i..][j - i];
      assert points[i] in Unclaimed(points, originals, i);
      MovedOnes(points, originals, |originals|, i);
      RestoringIsCautious(points, originals);
      SnapIsOnGrid(originals[i]);
    }
  }

  /** Snapping and putting back at once restores the very same line just when no point that snapping moves comes before
      one that stands where it is moved to. */
  lemma {:induction false} SnapThenRestoreIsExactIff(originals: Line)
    ensures Restored(SnapLine(originals), originals) == originals <==> forall i, j :: !InTheWay(originals, i, j)
  {
    if i: nat, j: nat :| InTheWay(originals, i, j) {
      InTheWayShows(originals, i, j);
    } else {
      var points := SnapLine(originals);
      var moved := Moved(points, originals, |originals|);
      ClaimsOwn(originals, |originals|);
      ReturnsOwn(originals, |moved|);
      assert moved[..|moved|] == moved;
    }
  }

  /** So it does when no two points snap together. */
  lemma {:induction false} ApartIsExact(originals: Line)
    requires forall i, j :: 0 <= i < j < |originals| ==> Snap(originals[i]) != Snap(originals[j])
    ensures Restored(SnapLine(originals), originals) == originals
  {
    forall i: nat, j: nat ensures !InTheWay(originals, i, j) {
      if i < j < |originals| {
        SnapIsOnGrid(originals[i]);
      }
    }
    SnapThenRestoreIsExactIff(originals);
  }
}
