/** Walking a dash pattern along a line, with the pattern carried on from one piece of the line to the next.

    A line is a length, and a bar on it two offsets from its start; its direction and color play no part. Lengths are
    exact numbers. */
module DashWalk {

  /** Lengths of dash, gap, dash, ... in line widths, repeated for ever. */
  datatype Pattern = Pattern(dashes: seq<real>, width: real)

  /** A bar on one of the pieces of a line. */
  datatype Bar = Bar(piece: nat, from: real, to: real)

  const SHORTEST_LINE := 0.00001
  const MAX_DASH_REPETITIONS := 10000.0

  /** No dash and no gap has a negative length; either can have none. */
  predicate Sensible(p: Pattern) {
    p.width >= 0.0 && forall k :: 0 <= k < |p.dashes| ==> p.dashes[k] >= 0.0
  }

  /** Where in the period the entry begins. */
  function Offset(p: Pattern, k: nat): real
    requires k <= |p.dashes|
  {
    if k == 0 then 0.0 else Offset(p, k - 1) + p.dashes[k - 1] * p.width
  }

  function Period(p: Pattern): real {
    Offset(p, |p.dashes|)
  }

  predicate Repeats(p: Pattern) {
    Sensible(p) && Period(p) > 0.0
  }

  function Min(a: real, b: real): real {
    if a < b then a else b
  }

  function Max(a: real, b: real): real {
    if a > b then a else b
  }

  // ---- the endless pattern ----

  function TurnBegins(p: Pattern, turn: int): real {
    turn as real * Period(p)
  }

  /** Where the entry of this turn of the pattern begins, counted from where the pattern does. */
  function Begins(p: Pattern, turn: int, k: nat): real
    requires k <= |p.dashes|
  {
    TurnBegins(p, turn) + Offset(p, k)
  }

  /** The point is in this entry of this turn. */
  predicate Within(p: Pattern, turn: int, k: nat, t: real)
    requires k < |p.dashes|
  {
    Begins(p, turn, k) <= t < Begins(p, turn, k + 1)
  }

  /** How much of the entry lies on a line that the pattern reaches at `phase`. */
  function Share(p: Pattern, turn: int, k: nat, phase: real, length: real): real
    requires k < |p.dashes|
  {
    Min(Begins(p, turn, k + 1) - phase, length) - Max(Begins(p, turn, k) - phase, 0.0)
  }

  /** The point of the line is in a drawn entry, enough of which lies on the line. */
  predicate ShownBy(p: Pattern, turn: int, k: nat, phase: real, length: real, x: real) {
    k < |p.dashes| && k % 2 == 0 && Within(p, turn, k, phase + x) && Share(p, turn, k, phase, length) >= SHORTEST_LINE
  }

  ghost predicate Shown(p: Pattern, phase: real, length: real, x: real) {
    exists turn, k :: ShownBy(p, turn, k, phase, length, x)
  }

  predicate Covers(b: Bar, x: real) {
    b.from <= x < b.to
  }

  ghost predicate Covered(bars: seq<Bar>, x: real) {
    exists i :: 0 <= i < |bars| && Covers(bars[i], x)
  }

  lemma {:induction false} Scaled(a: real, b: real, c: real)
    requires a <= b && c >= 0.0
    ensures a * c <= b * c
    ensures a < b && c > 0.0 ==> a * c < b * c
  {
    assert (b - a) * c >= 0.0;
    assert (b - a) * c == b * c - a * c;
  }

  lemma {:induction false} TurnSplits(turns: int, more: int, period: real)
    ensures (turns + more) as real * period == turns as real * period + more as real * period
  {
  }

  lemma {:induction false} OffsetsRise(p: Pattern, j: nat, k: nat)
    requires Sensible(p) && j <= k <= |p.dashes|
    ensures Offset(p, j) <= Offset(p, k)
    decreases k
  {
    if j < k {
      OffsetsRise(p, j, k - 1);
      assert p.dashes[k - 1] * p.width >= 0.0;
    }
  }

  lemma {:induction false} TurnsRise(p: Pattern, turn: int, later: int)
    requires Repeats(p) && turn < later
    ensures TurnBegins(p, turn) + Period(p) <= TurnBegins(p, later)
  {
    Scaled((turn + 1) as real, later as real, Period(p));
    TurnSplits(turn, 1, Period(p));
  }

  /** Entries follow one another: one that comes earlier ends before the later begins. */
  lemma {:induction false} EntriesInOrder(p: Pattern, turn: int, k: nat, later: int, j: nat)
    requires Repeats(p) && k < |p.dashes| && j < |p.dashes| && (turn < later || (turn == later && k < j))
    ensures Begins(p, turn, k + 1) <= Begins(p, later, j)
  {
    hide *;
    if turn == later {
      EntriesRise(p, turn, k + 1, j);
    } else {
      EntryInTurn(p, turn, k + 1);
      EntryInTurn(p, later, j);
      TurnsRise(p, turn, later);
    }
  }

  lemma {:induction false} EntriesRise(p: Pattern, turn: int, j: nat, k: nat)
    requires Repeats(p) && j <= k <= |p.dashes|
    ensures Begins(p, turn, j) <= Begins(p, turn, k)
  {
    OffsetsRise(p, j, k);
  }

  lemma {:induction false} EntryInTurn(p: Pattern, turn: int, k: nat)
    requires Repeats(p) && k <= |p.dashes|
    ensures TurnBegins(p, turn) <= Begins(p, turn, k) <= TurnBegins(p, turn) + Period(p)
  {
    OffsetsRise(p, 0, k);
    OffsetsRise(p, k, |p.dashes|);
  }

  /** A point is in one entry only. */
  lemma {:induction false} OneEntry(p: Pattern, turn: int, k: nat, turn': int, k': nat, t: real)
    requires Repeats(p) && k < |p.dashes| && k' < |p.dashes| && Within(p, turn, k, t) && Within(p, turn', k', t)
    ensures turn == turn' && k == k'
  {
    if turn < turn' || (turn == turn' && k < k') {
      EntriesInOrder(p, turn, k, turn', k');
    } else if turn' < turn || (turn == turn' && k' < k) {
      EntriesInOrder(p, turn', k', turn, k);
    }
  }

  // ---- the walk ----

  /** The part of a nonnegative number past the last whole period, as std::fmod() gives it. */
  function Fmod(x: real, period: real): real
    requires x >= 0.0 && period > 0.0
  {
    x - (x / period).Floor as real * period
  }

  /** The bars cover just the points of the pattern that reach this far, in order and without touching twice. */
  ghost predicate Follows(p: Pattern, phase: real, length: real, bars: seq<Bar>, reach: real) {
    && (forall x :: 0.0 <= x < reach ==> (Covered(bars, x) <==> Shown(p, phase, length, x)))
    && (forall i :: 0 <= i < |bars| ==> 0.0 <= bars[i].from <= bars[i].to - SHORTEST_LINE && bars[i].to <= Min(length, reach))
    && (forall i, j :: 0 <= i < j < |bars| ==> bars[i].to <= bars[j].from)
  }

  /** What one entry adds. */
  function EntryBars(p: Pattern, turn: int, k: nat, phase: real, length: real, piece: nat): seq<Bar>
    requires k < |p.dashes|
  {
    if k % 2 == 0 && Share(p, turn, k, phase, length) >= SHORTEST_LINE then
      [Bar(piece, Max(Begins(p, turn, k) - phase, 0.0), Min(Begins(p, turn, k + 1) - phase, length))]
    else
      []
  }

  lemma {:induction false} EntryShown(p: Pattern, turn: int, k: nat, phase: real, length: real, x: real)
    requires Repeats(p) && k < |p.dashes| && Within(p, turn, k, phase + x)
    ensures Shown(p, phase, length, x) <==> ShownBy(p, turn, k, phase, length, x)
  {
    if Shown(p, phase, length, x) {
      var turn': int, k': nat :| ShownBy(p, turn', k', phase, length, x);
      OneEntry(p, turn, k, turn', k', phase + x);
    }
  }

  lemma {:induction false} OneMoreEntry(p: Pattern, turn: int, k: nat, phase: real, length: real, bars: seq<Bar>, piece: nat)
    requires Repeats(p) && k < |p.dashes| && Begins(p, turn, k) - phase < length
    requires Follows(p, phase, length, bars, Begins(p, turn, k) - phase)
    ensures Begins(p, turn, k) <= Begins(p, turn, k + 1)
    ensures Follows(p, phase, length, bars + EntryBars(p, turn, k, phase, length, piece),
                    Min(length, Begins(p, turn, k + 1) - phase))
  {
    OffsetsRise(p, k, k + 1);
    var reach, end := Begins(p, turn, k) - phase, Begins(p, turn, k + 1) - phase;
    var more := bars + EntryBars(p, turn, k, phase, length, piece);
    forall x | 0.0 <= x < Min(length, end) ensures Covered(more, x) <==> Shown(p, phase, length, x) {
      if x < reach {
        if Covered(bars, x) {
          var i :| 0 <= i < |bars| && Covers(bars[i], x);
          assert Covers(more[i], x);
        }
        if Covered(more, x) {
          var i :| 0 <= i < |more| && Covers(more[i], x);
          assert i < |bars|;
          assert Covers(bars[i], x);
        }
      } else {
        EntryShown(p, turn, k, phase, length, x);
        if Covered(more, x) {
          var i :| 0 <= i < |more| && Covers(more[i], x);
          assert i == |bars|;
        }
        if ShownBy(p, turn, k, phase, length, x) {
          assert Covers(more[|bars|], x);
        }
      }
    }
  }

  /** Where walking a line of this length leaves the phase. */
  function PhaseAfter(p: Pattern, phase: real, length: real): (r: real)
    requires phase >= 0.0 && length >= 0.0
    ensures r >= 0.0
  {
    if length < SHORTEST_LINE || p.dashes == [] || Period(p) <= 0.0 then phase
    else if length / Period(p) > MAX_DASH_REPETITIONS then 0.0
    else
      FmodIs(phase + length, Period(p));
      Fmod(phase + length, Period(p))
  }

  /** Drawn without a pattern. */
  predicate DrawnSolid(p: Pattern, length: real) {
    p.dashes == [] || Period(p) <= 0.0 || length / Period(p) > MAX_DASH_REPETITIONS
  }

  /** What walking a line adds to the scene. */
  ghost predicate Drawing(p: Pattern, phase: real, length: real, piece: nat, bars: seq<Bar>) {
    && (forall i :: 0 <= i < |bars| ==> bars[i].piece == piece)
    && if length < SHORTEST_LINE then bars == []
       else if DrawnSolid(p, length) then bars == [Bar(piece, 0.0, length)]
       else Follows(p, phase, length, bars, length) && |bars| <= 10001 * |p.dashes|
  }

  lemma {:induction false} FmodIs(x: real, period: real)
    requires x >= 0.0 && period > 0.0
    ensures 0.0 <= Fmod(x, period) < period
    ensures Fmod(x, period) == x - (x / period).Floor as real * period
  {
    Divided(x, period);
    Scaled((x / period).Floor as real, x / period, period);
    Scaled(x / period, (x / period).Floor as real + 1.0, period);
    assert ((x / period).Floor as real + 1.0) * period == (x / period).Floor as real * period + period;
    assert Fmod(x, period) == x - (x / period).Floor as real * period;
  }

  lemma {:induction false} Divided(x: real, period: real)
    requires period > 0.0
    ensures x / period * period == x
  {
  }

  /** The walk has not gone round the pattern more often than the limit allows. */
  lemma {:induction false} TurnsAreFew(p: Pattern, phase: real, length: real, turn: int, k: nat)
    requires Repeats(p) && phase >= 0.0 && length / Period(p) <= MAX_DASH_REPETITIONS && k <= |p.dashes|
    requires Begins(p, turn, k) - phase < length
    ensures turn - (phase / Period(p)).Floor <= 10000
  {
    EntryInTurn(p, turn, k);
    FmodIs(phase, Period(p));
    Divided(length, Period(p));
    Scaled(length / Period(p), MAX_DASH_REPETITIONS, Period(p));
    FewTurns(turn, (phase / Period(p)).Floor, Period(p), phase, length);
  }

  lemma {:induction false} FewTurns(turn: int, first: int, period: real, phase: real, length: real)
    requires period > 0.0 && phase - first as real * period < period && length <= 10000.0 * period
    requires turn as real * period - phase < length
    ensures turn - first <= 10000
  {
    if turn - first > 10000 {
      Scaled(10001.0, (turn - first) as real, period);
      TurnSplits(first, turn - first, period);
    }
  }

  /** The part of the scene builder that draws bars. */
  class BarBuilder {
    const width: real
    var roomId: int
    var bars: seq<Bar>
    /** The first room with a dashed line drawn solid; 0 if none. */
    var solidDashRoomId: int

    constructor (width: real)
      ensures this.width == width && roomId == 0 && bars == [] && solidDashRoomId == 0
    {
      this.width := width;
      roomId := 0;
      bars := [];
      solidDashRoomId := 0;
    }

    method AppendBar(piece: nat, from: real, to: real)
      modifies this`bars
      ensures bars == old(bars) + if -SHORTEST_LINE < to - from < SHORTEST_LINE then [] else [Bar(piece, from, to)]
    {
      var gap := to - from;
      CutOff(gap);
      if gap * gap < 0.0000000001 {
        assert bars == bars + [];
        return;
      }
      bars := bars + [Bar(piece, from, to)];
    }

    /** dashedBar(): the line is drawn where its pattern is, and the phase carries the pattern on. */
    method DashedBar(piece: nat, length: real, dashes: seq<real>, phase: real) returns (carried: real)
      requires Sensible(Pattern(dashes, width)) && phase >= 0.0 && length >= 0.0
      modifies this`bars, this`solidDashRoomId
      ensures carried == PhaseAfter(Pattern(dashes, width), phase, length) && carried >= 0.0
      ensures exists more :: bars == old(bars) + more && Drawing(Pattern(dashes, width), phase, length, piece, more)
      ensures solidDashRoomId ==
              if old(solidDashRoomId) == 0 && length >= SHORTEST_LINE && dashes != [] && Period(Pattern(dashes, width)) > 0.0
                 && length / Period(Pattern(dashes, width)) > MAX_DASH_REPETITIONS
              then roomId else old(solidDashRoomId)
    {
      carried := phase;
      ghost var p := Pattern(dashes, width);
      if length < SHORTEST_LINE {
        assert bars == old(bars) + [];
        return;
      }
      if dashes == [] {
        AppendBar(piece, 0.0, length);
        return;
      }
      var period := 0.0;
      for i := 0 to |dashes|
        invariant period == Offset(p, i) && bars == old(bars) && solidDashRoomId == old(solidDashRoomId)
      {
        period := period + dashes[i] * width;
      }
      if period <= 0.0 {
        AppendBar(piece, 0.0, length);
        return;
      }
      if !(length / period <= MAX_DASH_REPETITIONS) {
        if solidDashRoomId == 0 {
          solidDashRoomId := roomId;
        }
        AppendBar(piece, 0.0, length);
        carried := 0.0;
        return;
      }
      Walk(piece, length, dashes, period, phase);
      FmodIs(phase + length, period);
      carried := Fmod(phase + length, period);
    }

    /** A custom line, drawn piece by piece with one pattern. */
    method DashedLine(lengths: seq<real>, dashes: seq<real>)
      requires Sensible(Pattern(dashes, width)) && Lengths(lengths)
      modifies this`bars, this`solidDashRoomId
      ensures exists more :: bars == old(bars) + more && LineDrawing(Pattern(dashes, width), 0.0, lengths, |lengths|, more)
    {
      ghost var p := Pattern(dashes, width);
      var phase := 0.0;
      ghost var more := [];
      for i := 0 to |lengths|
        invariant phase == PhaseAt(p, 0.0, lengths, i)
        invariant bars == old(bars) + more && LineDrawing(p, 0.0, lengths, i, more)
      {
        ghost var before := bars;
        phase := DashedBar(i, lengths[i], dashes, phase);
        ghost var last :| bars == before + last && Drawing(p, PhaseAt(p, 0.0, lengths, i), lengths[i], i, last);
        JoinedUp(old(bars), more, last);
        LineGrows(p, lengths, i, more, last);
        more := more + last;
      }
    }

    method AppendEntry(piece: nat, drawn: bool, start: real, end: real)
      modifies this`bars
      ensures bars == old(bars) + WalkedBar(drawn, start, end, piece)
    {
      if drawn && end > start {
        AppendBar(piece, start, end);
      } else {
        assert bars == bars + [];
      }
    }

    method Walk(piece: nat, length: real, dashes: seq<real>, period: real, phase: real)
      requires Repeats(Pattern(dashes, width)) && period == Period(Pattern(dashes, width)) && period > 0.0
      requires phase >= 0.0 && length >= SHORTEST_LINE && length / period <= MAX_DASH_REPETITIONS
      modifies this`bars
      ensures exists more :: bars == old(bars) + more && Drawing(Pattern(dashes, width), phase, length, piece, more)
    {
      hide *;
      ghost var p := Pattern(dashes, width);
      ghost var turn, more := (phase / period).Floor, [];
      ghost var last := turn + 10001;
      var index := 0;
      var position := -Fmod(phase, period);
      WalkBegins(p, phase, length, piece);
      while position < length
        invariant 0 <= index < |dashes| && Walking(p, phase, length, piece, turn, index, position, more)
        invariant bars == old(bars) + more
        decreases last - turn, |dashes| - index
      {
        var dashLength := dashes[index] * width;
        var drawn := index % 2 == 0;
        var start, end := Max(position, 0.0), Min(position + dashLength, length);
        EntryIs(p, phase, length, piece, turn, index, position, more, dashLength);
        WalkOn(p, phase, length, piece, turn, index, position, more, dashLength);
        ghost var entry := EntryBars(p, turn, index, phase, length, piece);
        AppendEntry(piece, drawn, start, end);
        JoinedUp(old(bars), more, entry);
        more := more + entry;
        position := position + dashLength;
        turn := if index + 1 == |dashes| then turn + 1 else turn;
        Remainder(index, |dashes|);
        index := (index + 1) % |dashes|;
      }
      WalkEnds(p, phase, length, piece, turn, index, position, more);
    }
  }

  /** The walk so far: at this entry of this turn, with everything before it drawn. */
  ghost predicate Walking(p: Pattern, phase: real, length: real, piece: nat,
                          turn: int, index: nat, position: real, bars: seq<Bar>)
    requires Repeats(p) && phase >= 0.0
  {
    var first := (phase / Period(p)).Floor;
    && index < |p.dashes| && first <= turn <= first + 10001 && (turn == first + 10001 ==> index == 0)
    && position == Begins(p, turn, index) - phase
    && Follows(p, phase, length, bars, Min(length, position))
    && |bars| <= (turn - first) * |p.dashes| + index
    && forall i :: 0 <= i < |bars| ==> bars[i].piece == piece
  }

  lemma {:induction false} WalkBegins(p: Pattern, phase: real, length: real, piece: nat)
    requires Repeats(p) && phase >= 0.0 && length >= SHORTEST_LINE
    ensures |p.dashes| > 0
    ensures Walking(p, phase, length, piece, (phase / Period(p)).Floor, 0, -Fmod(phase, Period(p)), [])
  {
    FmodIs(phase, Period(p));
    assert Begins(p, (phase / Period(p)).Floor, 0) == (phase / Period(p)).Floor as real * Period(p);
  }

  /** The bar that the walk's own arithmetic gives for an entry. */
  function WalkedBar(drawn: bool, start: real, end: real, piece: nat): seq<Bar> {
    if drawn && end > start && !(-SHORTEST_LINE < end - start < SHORTEST_LINE) then [Bar(piece, start, end)] else []
  }

  lemma {:induction false} EntryIs(p: Pattern, phase: real, length: real, piece: nat,
                                   turn: int, index: nat, position: real, bars: seq<Bar>, dashLength: real)
    requires Repeats(p) && phase >= 0.0 && Walking(p, phase, length, piece, turn, index, position, bars)
    requires dashLength == p.dashes[index] * p.width
    ensures position + dashLength == Begins(p, turn, index + 1) - phase
    ensures EntryBars(p, turn, index, phase, length, piece) ==
            WalkedBar(index % 2 == 0, Max(position, 0.0), Min(position + dashLength, length), piece)
  {
  }

  lemma {:induction false} WalkOn(p: Pattern, phase: real, length: real, piece: nat,
                                  turn: int, index: nat, position: real, bars: seq<Bar>, dashLength: real)
    requires Repeats(p) && phase >= 0.0 && length / Period(p) <= MAX_DASH_REPETITIONS && position < length
    requires Walking(p, phase, length, piece, turn, index, position, bars) && dashLength == p.dashes[index] * p.width
    ensures turn - (phase / Period(p)).Floor <= 10000
    ensures Walking(p, phase, length, piece, if index + 1 == |p.dashes| then turn + 1 else turn, (index + 1) % |p.dashes|,
                    position + dashLength, bars + EntryBars(p, turn, index, phase, length, piece))
  {
    TurnsAreFew(p, phase, length, turn, index);
    EntryIs(p, phase, length, piece, turn, index, position, bars, p.dashes[index] * p.width);
    OneMoreEntry(p, turn, index, phase, length, bars, piece);
    TurnOver(p, turn);
    TurnCounts(turn - (phase / Period(p)).Floor, |p.dashes|);
    Remainder(index, |p.dashes|);
  }

  lemma {:induction false} LineGrows(p: Pattern, lengths: seq<real>, i: nat, more: seq<Bar>, last: seq<Bar>)
    requires Lengths(lengths) && i < |lengths| && LineDrawing(p, 0.0, lengths, i, more)
    requires Drawing(p, PhaseAt(p, 0.0, lengths, i), lengths[i], i, last)
    ensures LineDrawing(p, 0.0, lengths, i + 1, more + last)
  {
  }

  lemma {:induction false} JoinedUp(a: seq<Bar>, b: seq<Bar>, c: seq<Bar>)
    ensures a + (b + c) == a + b + c
  {
  }

  lemma {:induction false} TurnCounts(turns: int, n: nat)
    ensures (turns + 1) * n == turns * n + n
  {
  }

  lemma {:induction false} Remainder(index: nat, n: nat)
    requires index < n
    ensures (index + 1) % n == if index + 1 == n then 0 else index + 1
  {
  }

  lemma {:induction false} WalkEnds(p: Pattern, phase: real, length: real, piece: nat,
                                    turn: int, index: nat, position: real, bars: seq<Bar>)
    requires Repeats(p) && phase >= 0.0 && length >= SHORTEST_LINE && length / Period(p) <= MAX_DASH_REPETITIONS
    requires position >= length && Walking(p, phase, length, piece, turn, index, position, bars)
    ensures Drawing(p, phase, length, piece, bars)
  {
    EntriesAreFew(turn - (phase / Period(p)).Floor, |p.dashes|, index);
  }

  lemma {:induction false} EntriesAreFew(turns: int, n: nat, index: nat)
    requires turns <= 10001 && index < n && (turns == 10001 ==> index == 0)
    ensures turns * n + index <= 10001 * n
  {
    if turns < 10001 {
      assert (10001 - turns) * n >= n;
      assert (10001 - turns) * n == 10001 * n - turns * n;
    }
  }

  lemma {:induction false} TurnOver(p: Pattern, turn: int)
    ensures Begins(p, turn, |p.dashes|) == Begins(p, turn + 1, 0)
  {
  }

  lemma {:induction false} CutOff(d: real)
    ensures d * d < 0.0000000001 <==> -SHORTEST_LINE < d < SHORTEST_LINE
  {
    if d >= 0.0 {
      SizeCutOff(d);
    } else {
      var size := -d;
      Squares(d, size);
      SizeCutOff(size);
    }
  }

  lemma {:induction false} Squares(d: real, size: real)
    requires size == -d
    ensures size * size == d * d
  {
  }

  lemma {:induction false} SizeCutOff(size: real)
    requires size >= 0.0
    ensures size * size < 0.0000000001 <==> size < SHORTEST_LINE
  {
    if size >= SHORTEST_LINE {
      Scaled(SHORTEST_LINE, size, size);
      Scaled(SHORTEST_LINE, size, SHORTEST_LINE);
    } else {
      Scaled(size, SHORTEST_LINE, size);
    }
  }

  // ---- a line in pieces ----

  predicate Lengths(lengths: seq<real>) {
    forall i :: 0 <= i < |lengths| ==> lengths[i] >= 0.0
  }

  /** The phase each piece starts with. */
  function PhaseAt(p: Pattern, phase: real, lengths: seq<real>, i: nat): (r: real)
    requires phase >= 0.0 && i <= |lengths| && Lengths(lengths)
    ensures r >= 0.0
  {
    if i == 0 then phase else PhaseAfter(p, PhaseAt(p, phase, lengths, i - 1), lengths[i - 1])
  }

  /** How far the line has gone before the piece, over the pieces long enough to be walked. */
  function Gone(lengths: seq<real>, i: nat): real
    requires i <= |lengths|
  {
    if i == 0 then 0.0
    else if lengths[i - 1] < SHORTEST_LINE then Gone(lengths, i - 1)
    else Gone(lengths, i - 1) + lengths[i - 1]
  }

  /** The pattern repeats, and not too often along any piece. */
  predicate Dashable(p: Pattern, lengths: seq<real>) {
    Repeats(p) && Lengths(lengths) && forall i :: 0 <= i < |lengths| ==> lengths[i] / Period(p) <= MAX_DASH_REPETITIONS
  }

  lemma {:induction false} GoneGrows(lengths: seq<real>, i: nat, j: nat)
    requires i <= j <= |lengths|
    ensures Gone(lengths, i) <= Gone(lengths, j)
    ensures i < j && lengths[i] >= SHORTEST_LINE ==> Gone(lengths, i) + lengths[i] <= Gone(lengths, j)
    decreases j
  {
    if i < j {
      GoneGrows(lengths, i, j - 1);
    }
  }

  lemma {:induction false} TurnsAdd(p: Pattern, a: int, b: int)
    ensures TurnBegins(p, a + b) == TurnBegins(p, a) + TurnBegins(p, b)
  {
  }

  /** The phase a piece starts with is how far the line has gone, but for whole turns of the pattern. */
  lemma {:induction false} PhaseIsCarried(p: Pattern, phase: real, lengths: seq<real>, i: nat) returns (turns: int)
    requires Dashable(p, lengths) && phase >= 0.0 && i <= |lengths|
    ensures PhaseAt(p, phase, lengths, i) + TurnBegins(p, turns) == phase + Gone(lengths, i)
  {
    if i == 0 {
      turns := 0;
    } else {
      var before := PhaseIsCarried(p, phase, lengths, i - 1);
      var more := PhaseMovesOn(p, PhaseAt(p, phase, lengths, i - 1), lengths[i - 1]);
      TurnsAdd(p, before, more);
      turns := before + more;
    }
  }

  lemma {:induction false} PhaseMovesOn(p: Pattern, phase: real, length: real) returns (turns: int)
    requires Repeats(p) && phase >= 0.0 && length >= 0.0 && length / Period(p) <= MAX_DASH_REPETITIONS
    ensures PhaseAfter(p, phase, length) + TurnBegins(p, turns) == phase + if length < SHORTEST_LINE then 0.0 else length
  {
    turns := if length < SHORTEST_LINE || p.dashes == [] then 0 else ((phase + length) / Period(p)).Floor;
  }

  lemma {:induction false} WholeTurnsChangeNothing(p: Pattern, phase: real, turns: int, length: real, x: real)
    ensures Shown(p, phase + TurnBegins(p, turns), length, x) <==> Shown(p, phase, length, x)
  {
    var later := phase + TurnBegins(p, turns);
    if Shown(p, phase, length, x) {
      var turn: int, k: nat :| ShownBy(p, turn, k, phase, length, x);
      EntryTurned(p, turn, turns, k);
      EntryTurned(p, turn, turns, k + 1);
      assert ShownBy(p, turn + turns, k, later, length, x);
    }
    if Shown(p, later, length, x) {
      var turn: int, k: nat :| ShownBy(p, turn, k, later, length, x);
      EntryTurned(p, turn - turns, turns, k);
      EntryTurned(p, turn - turns, turns, k + 1);
      assert ShownBy(p, turn - turns, k, phase, length, x);
    }
  }

  lemma {:induction false} EntryTurned(p: Pattern, turn: int, turns: int, k: nat)
    requires k <= |p.dashes|
    ensures Begins(p, turn + turns, k) == Begins(p, turn, k) + TurnBegins(p, turns)
  {
    TurnsAdd(p, turn, turns);
  }

  /** With the phase carried on, each piece shows the pattern from where the line has got to. */
  lemma {:induction false} PiecesFollowThePattern(p: Pattern, phase: real, lengths: seq<real>, i: nat, x: real)
    requires Dashable(p, lengths) && phase >= 0.0 && i < |lengths|
    ensures Shown(p, PhaseAt(p, phase, lengths, i), lengths[i], x) <==> Shown(p, phase + Gone(lengths, i), lengths[i], x)
  {
    var turns := PhaseIsCarried(p, phase, lengths, i);
    WholeTurnsChangeNothing(p, PhaseAt(p, phase, lengths, i), turns, lengths[i], x);
  }

  /** The point is in a drawn entry too little of which lies on the piece to be drawn there. */
  predicate CutShortBy(p: Pattern, turn: int, k: nat, phase: real, length: real, x: real) {
    k < |p.dashes| && k % 2 == 0 && Within(p, turn, k, phase + x) && Share(p, turn, k, phase, length) < SHORTEST_LINE
  }

  ghost predicate CutShort(p: Pattern, phase: real, length: real, x: real) {
    exists turn, k :: CutShortBy(p, turn, k, phase, length, x)
  }

  lemma {:induction false} PieceOfAnEntry(p: Pattern, turn: int, k: nat, phase: real, whole: real, start: real, length: real)
    requires k < |p.dashes| && 0.0 <= start && start + length <= whole
    ensures Share(p, turn, k, phase + start, length) <= Share(p, turn, k, phase, whole)
  {
  }

  /** Cut into pieces, a line shows what it would show whole, but for dashes the cuts leave too short to draw. */
  lemma {:induction false} PiecesShowTheWhole(p: Pattern, phase: real, lengths: seq<real>, i: nat, x: real)
    requires Dashable(p, lengths) && phase >= 0.0 && i < |lengths| && lengths[i] >= SHORTEST_LINE
    ensures var start := Gone(lengths, i);
            Shown(p, PhaseAt(p, phase, lengths, i), lengths[i], x) <==>
            Shown(p, phase, Gone(lengths, |lengths|), start + x) && !CutShort(p, phase + start, lengths[i], x)
  {
    var start, whole := Gone(lengths, i), Gone(lengths, |lengths|);
    PiecesFollowThePattern(p, phase, lengths, i, x);
    GoneGrows(lengths, 0, i);
    GoneGrows(lengths, i, |lengths|);
    if Shown(p, phase + start, lengths[i], x) {
      var turn: int, k: nat :| ShownBy(p, turn, k, phase + start, lengths[i], x);
      PieceOfAnEntry(p, turn, k, phase, whole, start, lengths[i]);
      assert ShownBy(p, turn, k, phase, whole, start + x);
      if CutShort(p, phase + start, lengths[i], x) {
        var turn': int, k': nat :| CutShortBy(p, turn', k', phase + start, lengths[i], x);
        OneEntry(p, turn, k, turn', k', phase + start + x);
      }
    }
    if Shown(p, phase, whole, start + x) && !CutShort(p, phase + start, lengths[i], x) {
      var turn: int, k: nat :| ShownBy(p, turn, k, phase, whole, start + x);
      assert !CutShortBy(p, turn, k, phase + start, lengths[i], x);
      assert ShownBy(p, turn, k, phase + start, lengths[i], x);
    }
  }

  /** The bars of a line's pieces, one after another. */
  ghost predicate LineDrawing(p: Pattern, phase: real, lengths: seq<real>, n: nat, bars: seq<Bar>)
    requires phase >= 0.0 && n <= |lengths| && Lengths(lengths)
  {
    if n == 0 then bars == [] else
      exists before, last ::
        && bars == before + last && LineDrawing(p, phase, lengths, n - 1, before)
        && Drawing(p, PhaseAt(p, phase, lengths, n - 1), lengths[n - 1], n - 1, last)
  }

  ghost predicate CoveredOn(bars: seq<Bar>, piece: nat, x: real) {
    exists b :: b in bars && b.piece == piece && Covers(b, x)
  }

  /** What is drawn of a line is its endless pattern, from where the line starts to where it ends. */
  lemma {:induction false} LineShowsItsPattern(p: Pattern, phase: real, lengths: seq<real>, n: nat, bars: seq<Bar>, i: nat, x: real)
    requires Dashable(p, lengths) && phase >= 0.0 && i < n <= |lengths| && LineDrawing(p, phase, lengths, n, bars)
    requires lengths[i] >= SHORTEST_LINE && 0.0 <= x < lengths[i]
    ensures CoveredOn(bars, i, x) <==>
            Shown(p, phase, Gone(lengths, |lengths|), Gone(lengths, i) + x) && !CutShort(p, phase + Gone(lengths, i), lengths[i], x)
    decreases n
  {
    var before, last :| bars == before + last && LineDrawing(p, phase, lengths, n - 1, before)
                        && Drawing(p, PhaseAt(p, phase, lengths, n - 1), lengths[n - 1], n - 1, last);
    if i < n - 1 {
      LineShowsItsPattern(p, phase, lengths, n - 1, before, i, x);
      SamePieceOnly(before, last, n - 1, i, x);
    } else {
      OnlyItsPieces(p, phase, lengths, n - 1, before);
      LastPieceOnly(before, last, i, x);
      PiecesShowTheWhole(p, phase, lengths, i, x);
    }
  }

  lemma {:induction false} SamePieceOnly(before: seq<Bar>, last: seq<Bar>, n: nat, i: nat, x: real)
    requires i != n && forall j :: 0 <= j < |last| ==> last[j].piece == n
    ensures CoveredOn(before + last, i, x) <==> CoveredOn(before, i, x)
  {
    if CoveredOn(before, i, x) {
      var b :| b in before && b.piece == i && Covers(b, x);
      assert b in before + last;
    }
  }

  lemma {:induction false} LastPieceOnly(before: seq<Bar>, last: seq<Bar>, i: nat, x: real)
    requires (forall j :: 0 <= j < |before| ==> before[j].piece < i) && forall j :: 0 <= j < |last| ==> last[j].piece == i
    ensures CoveredOn(before + last, i, x) <==> Covered(last, x)
  {
    if Covered(last, x) {
      var j :| 0 <= j < |last| && Covers(last[j], x);
      assert last[j] in before + last;
    }
    if CoveredOn(before + last, i, x) {
      var b :| b in before + last && b.piece == i && Covers(b, x);
      assert b in last;
    }
  }

  lemma {:induction false} OnlyItsPieces(p: Pattern, phase: real, lengths: seq<real>, n: nat, bars: seq<Bar>)
    requires phase >= 0.0 && n <= |lengths| && Lengths(lengths) && LineDrawing(p, phase, lengths, n, bars)
    ensures forall j :: 0 <= j < |bars| ==> bars[j].piece < n
    decreases n
  {
    if n > 0 {
      var before, last :| bars == before + last && LineDrawing(p, phase, lengths, n - 1, before)
                          && Drawing(p, PhaseAt(p, phase, lengths, n - 1), lengths[n - 1], n - 1, last);
      OnlyItsPieces(p, phase, lengths, n - 1, before);
    }
  }
}
