/** Keeping only labels that do not overlap an earlier kept one, with a grid so that each is compared with near
    ones only. */
module RectDeclutter {

  /** A rectangle by corner and size, as the toolkit holds it. */
  datatype Rect = Rect(left: real, top: real, width: real, height: real)

  const CELL_SIZE := 64.0
  const TWO_TO_THE_32 := 0x1_0000_0000

  function Right(r: Rect): real {
    r.left + r.width
  }

  function Bottom(r: Rect): real {
    r.top + r.height
  }

  predicate Eligible(r: Rect, minimumHeight: real) {
    r.width > 0.0 && r.height > 0.0 && r.height >= minimumHeight
  }

  /** Rectangles that share an edge only do not intersect. */
  predicate Intersects(a: Rect, b: Rect) {
    && a.width > 0.0 && a.height > 0.0 && b.width > 0.0 && b.height > 0.0
    && a.left < Right(b) && b.left < Right(a) && a.top < Bottom(b) && b.top < Bottom(a)
  }

  // ---- the plain greedy scan ----

  predicate OverlapsAny(rects: seq<Rect>, kept: seq<nat>, r: Rect) {
    exists i :: 0 <= i < |kept| && kept[i] < |rects| && Intersects(rects[kept[i]], r)
  }

  /** Among the first `n`: each one that may be kept and overlaps none kept before it. */
  function Greedy(rects: seq<Rect>, minimumHeight: real, n: nat): seq<nat>
    requires n <= |rects|
  {
    if n == 0 then []
    else
      var kept := Greedy(rects, minimumHeight, n - 1);
      if Eligible(rects[n - 1], minimumHeight) && !OverlapsAny(rects, kept, rects[n - 1]) then kept + [n - 1] else kept
  }

  /** `k` overlaps one kept before it. */
  ghost predicate Crowded(rects: seq<Rect>, kept: seq<nat>, k: nat) {
    exists i :: 0 <= i < |kept| && kept[i] < k < |rects| && Intersects(rects[kept[i]], rects[k])
  }

  ghost predicate Apart(rects: seq<Rect>, kept: seq<nat>) {
    && (forall i :: 0 <= i < |kept| ==> kept[i] < |rects|)
    && forall i, j :: 0 <= i < j < |kept| ==> kept[i] < kept[j] && !Intersects(rects[kept[i]], rects[kept[j]])
  }

  /** The scan of the first `n`: what was kept may be kept, and the rest of those that may be are crowded out. */
  ghost predicate Scanned(rects: seq<Rect>, minimumHeight: real, kept: seq<nat>, n: nat) {
    && n <= |rects| && Apart(rects, kept)
    && (forall i :: 0 <= i < |kept| ==> kept[i] < n && Eligible(rects[kept[i]], minimumHeight))
    && (forall k: nat :: k < n && Eligible(rects[k], minimumHeight) ==> k in kept || Crowded(rects, kept, k))
  }

  lemma {:induction false} CrowdedStays(rects: seq<Rect>, kept: seq<nat>, n: nat, k: nat)
    requires Crowded(rects, kept, k)
    ensures Crowded(rects, kept + [n], k)
  {
    var i :| 0 <= i < |kept| && kept[i] < k < |rects| && Intersects(rects[kept[i]], rects[k]);
    assert (kept + [n])[i] == kept[i];
  }

  lemma {:induction false} ScanKeeps(rects: seq<Rect>, minimumHeight: real, kept: seq<nat>, n: nat)
    requires Scanned(rects, minimumHeight, kept, n) && n < |rects|
    requires Eligible(rects[n], minimumHeight) && !OverlapsAny(rects, kept, rects[n])
    ensures Scanned(rects, minimumHeight, kept + [n], n + 1)
  {
    var kept' := kept + [n];
    assert kept'[|kept|] == n;
    forall k: nat | k < n + 1 && Eligible(rects[k], minimumHeight) ensures k in kept' || Crowded(rects, kept', k) {
      if k < n && k !in kept {
        CrowdedStays(rects, kept, n, k);
      }
    }
  }

  lemma {:induction false} ScanDrops(rects: seq<Rect>, minimumHeight: real, kept: seq<nat>, n: nat)
    requires Scanned(rects, minimumHeight, kept, n) && n < |rects|
    requires !Eligible(rects[n], minimumHeight) || OverlapsAny(rects, kept, rects[n])
    ensures Scanned(rects, minimumHeight, kept, n + 1)
  {
  }

  /** What is kept is pairwise apart, and whatever could have been kept but was not overlaps one kept before it. */
  lemma {:induction false} KeptApart(rects: seq<Rect>, minimumHeight: real, n: nat)
    requires n <= |rects|
    ensures Scanned(rects, minimumHeight, Greedy(rects, minimumHeight, n), n)
  {
    if n > 0 {
      KeptApart(rects, minimumHeight, n - 1);
      var before := Greedy(rects, minimumHeight, n - 1);
      if Eligible(rects[n - 1], minimumHeight) && !OverlapsAny(rects, before, rects[n - 1]) {
        ScanKeeps(rects, minimumHeight, before, n - 1);
      } else {
        ScanDrops(rects, minimumHeight, before, n - 1);
      }
    }
  }

  // ---- the grid ----

  function Column(x: real): int {
    (x / CELL_SIZE).Floor
  }

  /** Column and row cut to 32 bits each: far apart cells may share a key. */
  function CellKey(column: int, row: int): nat {
    (column % TWO_TO_THE_32) * TWO_TO_THE_32 + row % TWO_TO_THE_32
  }

  predicate Touches(r: Rect, column: int, row: int) {
    Column(r.left) <= column <= Column(Right(r)) && Column(r.top) <= row <= Column(Bottom(r))
  }

  lemma {:induction false} FloorMonotone(x: real, y: real)
    requires x <= y
    ensures Column(x) <= Column(y)
  {
  }

  /** Rectangles that intersect touch a cell in common. */
  lemma {:induction false} CommonCell(a: Rect, b: Rect) returns (column: int, row: int)
    requires Intersects(a, b)
    ensures Touches(a, column, row) && Touches(b, column, row)
  {
    var x := if a.left < b.left then b.left else a.left;
    var y := if a.top < b.top then b.top else a.top;
    column, row := Column(x), Column(y);
    FloorMonotone(a.left, x);
    FloorMonotone(b.left, x);
    FloorMonotone(x, Right(a));
    FloorMonotone(x, Right(b));
    FloorMonotone(a.top, y);
    FloorMonotone(b.top, y);
    FloorMonotone(y, Bottom(a));
    FloorMonotone(y, Bottom(b));
  }

  type Grid = map<nat, seq<nat>>

  function At(grid: Grid, key: nat): seq<nat> {
    if key in grid then grid[key] else []
  }

  /** Only kept rectangles are filed, and each under every cell it touches. */
  ghost predicate Filed(grid: Grid, rects: seq<Rect>, kept: seq<nat>) {
    && (forall key, i :: key in grid && 0 <= i < |grid[key]| ==> grid[key][i] in kept)
    && (forall k, column, row :: k in kept && k < |rects| && Touches(rects[k], column, row) ==>
          k in At(grid, CellKey(column, row)))
  }

  method CellOverlaps(grid: Grid, rects: seq<Rect>, kept: seq<nat>, column: int, row: int, r: Rect) returns (overlaps: bool)
    requires Filed(grid, rects, kept) && forall i :: 0 <= i < |kept| ==> kept[i] < |rects|
    ensures overlaps ==> OverlapsAny(rects, kept, r)
    ensures !overlaps ==> CellClear(grid, rects, column, row, r)
  {
    var cell := At(grid, CellKey(column, row));
    for i := 0 to |cell|
      invariant forall j :: 0 <= j < i ==> cell[j] < |rects| && !Intersects(rects[cell[j]], r)
    {
      assert cell[i] in kept;
      if Intersects(rects[cell[i]], r) {
        return true;
      }
    }
    overlaps := false;
  }

  method ColumnOverlaps(grid: Grid, rects: seq<Rect>, kept: seq<nat>, column: int, r: Rect) returns (overlaps: bool)
    requires Filed(grid, rects, kept) && forall i :: 0 <= i < |kept| ==> kept[i] < |rects|
    ensures overlaps ==> OverlapsAny(rects, kept, r)
    ensures !overlaps ==> forall w :: Column(r.top) <= w <= Column(Bottom(r)) ==> CellClear(grid, rects, column, w, r)
  {
    var row := Column(r.top);
    overlaps := false;
    while row <= Column(Bottom(r)) && !overlaps
      invariant overlaps ==> OverlapsAny(rects, kept, r)
      invariant !overlaps ==> forall w :: Column(r.top) <= w < row ==> CellClear(grid, rects, column, w, r)
      decreases Column(Bottom(r)) - row + 1, !overlaps
    {
      overlaps := CellOverlaps(grid, rects, kept, column, row, r);
      row := row + 1;
    }
  }

  /** Looking through the cells a rectangle touches finds an overlap exactly when there is one. */
  method FindsOverlap(grid: Grid, rects: seq<Rect>, kept: seq<nat>, r: Rect) returns (overlaps: bool)
    requires Filed(grid, rects, kept) && forall i :: 0 <= i < |kept| ==> kept[i] < |rects|
    ensures overlaps <==> OverlapsAny(rects, kept, r)
  {
    var column := Column(r.left);
    overlaps := false;
    while column <= Column(Right(r)) && !overlaps
      invariant overlaps ==> OverlapsAny(rects, kept, r)
      invariant !overlaps ==> forall c, w :: c < column && Touches(r, c, w) ==> CellClear(grid, rects, c, w, r)
      decreases Column(Right(r)) - column + 1, !overlaps
    {
      overlaps := ColumnOverlaps(grid, rects, kept, column, r);
      column := column + 1;
    }
    if !overlaps {
      NothingNear(grid, rects, kept, r);
    }
  }

  predicate CellClear(grid: Grid, rects: seq<Rect>, column: int, row: int, r: Rect) {
    var cell := At(grid, CellKey(column, row));
    forall j :: 0 <= j < |cell| ==> cell[j] < |rects| && !Intersects(rects[cell[j]], r)
  }

  lemma {:induction false} NothingNear(grid: Grid, rects: seq<Rect>, kept: seq<nat>, r: Rect)
    requires Filed(grid, rects, kept)
    requires forall c, w :: Touches(r, c, w) ==> CellClear(grid, rects, c, w, r)
    ensures !OverlapsAny(rects, kept, r)
  {
    forall i | 0 <= i < |kept| && kept[i] < |rects| ensures !Intersects(rects[kept[i]], r) {
      if Intersects(rects[kept[i]], r) {
        var c, w := CellOfOverlap(grid, rects, kept, r, i);
      }
    }
  }

  lemma {:induction false} CellOfOverlap(grid: Grid, rects: seq<Rect>, kept: seq<nat>, r: Rect, i: nat)
    returns (column: int, row: int)
    requires Filed(grid, rects, kept) && i < |kept| && kept[i] < |rects| && Intersects(rects[kept[i]], r)
    ensures Touches(r, column, row) && !CellClear(grid, rects, column, row, r)
  {
    column, row := CommonCell(rects[kept[i]], r);
    assert kept[i] in At(grid, CellKey(column, row));
  }

  /** What was filed is still there, and nothing but this rectangle has come in. */
  ghost predicate Filing(grid: Grid, filed: Grid, index: nat) {
    && (forall key, k :: k in At(filed, key) ==> k in At(grid, key) || k == index)
    && (forall key, k :: k in At(grid, key) ==> k in At(filed, key))
  }

  lemma {:induction false} FiledOnce(grid: Grid, key: nat, index: nat)
    ensures Filing(grid, grid[key := At(grid, key) + [index]], index)
    ensures index in At(grid[key := At(grid, key) + [index]], key)
  {
    var cell := At(grid, key) + [index];
    assert cell[|At(grid, key)|] == index;
  }

  lemma {:induction false} FilingTrans(a: Grid, b: Grid, c: Grid, index: nat)
    requires Filing(a, b, index) && Filing(b, c, index)
    ensures Filing(a, c, index)
  {
  }

  method FileColumn(grid: Grid, r: Rect, column: int, index: nat) returns (filed: Grid)
    ensures Filing(grid, filed, index)
    ensures forall w :: Column(r.top) <= w <= Column(Bottom(r)) ==> index in At(filed, CellKey(column, w))
  {
    filed := grid;
    var row := Column(r.top);
    while row <= Column(Bottom(r))
      invariant Filing(grid, filed, index)
      invariant forall w :: Column(r.top) <= w < row && w <= Column(Bottom(r)) ==> index in At(filed, CellKey(column, w))
    {
      var key := CellKey(column, row);
      ghost var was := filed;
      FiledOnce(was, key, index);
      filed := filed[key := At(filed, key) + [index]];
      FilingTrans(grid, was, filed, index);
      row := row + 1;
    }
  }

  /** Files a newly kept rectangle under every cell it touches. */
  method File(grid: Grid, rects: seq<Rect>, kept: seq<nat>, index: nat) returns (filed: Grid)
    requires index < |rects| && Filed(grid, rects, kept)
    ensures Filed(filed, rects, kept + [index])
  {
    var r := rects[index];
    filed := grid;
    var column := Column(r.left);
    while column <= Column(Right(r))
      invariant Filing(grid, filed, index)
      invariant forall c, w :: c < column && Touches(r, c, w) ==> index in At(filed, CellKey(c, w))
    {
      ghost var was := filed;
      filed := FileColumn(filed, r, column, index);
      FilingTrans(grid, was, filed, index);
      column := column + 1;
    }
    FiledToo(grid, filed, rects, kept, index);
  }

  lemma {:induction false} FiledToo(grid: Grid, filed: Grid, rects: seq<Rect>, kept: seq<nat>, index: nat)
    requires index < |rects| && Filed(grid, rects, kept) && Filing(grid, filed, index)
    requires forall c, w :: Touches(rects[index], c, w) ==> index in At(filed, CellKey(c, w))
    ensures Filed(filed, rects, kept + [index])
  {
    var kept' := kept + [index];
    assert kept'[|kept|] == index;
    forall key, i | key in filed && 0 <= i < |filed[key]| ensures filed[key][i] in kept' {
      assert filed[key][i] in At(filed, key);
    }
    forall k, c, w | k in kept' && k < |rects| && Touches(rects[k], c, w) ensures k in At(filed, CellKey(c, w)) {
      if k in kept {
        assert k in At(grid, CellKey(c, w));
      }
    }
  }

  /** declutteredRects(): the grid gives exactly what the plain scan over all earlier kept rectangles gives,
      whichever cells share a key. */
  method DeclutteredRects(rects: seq<Rect>, minimumHeight: real) returns (kept: seq<nat>)
    ensures kept == Greedy(rects, minimumHeight, |rects|)
  {
    var grid: Grid := map[];
    kept := [];
    for index := 0 to |rects|
      invariant kept == Greedy(rects, minimumHeight, index)
      invariant forall i :: 0 <= i < |kept| ==> kept[i] < |rects|
      invariant Filed(grid, rects, kept)
    {
      var r := rects[index];
      if r.width > 0.0 && r.height > 0.0 && r.height >= minimumHeight {
        var overlaps := FindsOverlap(grid, rects, kept, r);
        if !overlaps {
          grid := File(grid, rects, kept, index);
          kept := kept + [index];
        }
      }
    }
  }
}
