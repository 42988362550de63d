/** The integer arithmetic of `src/ui.rs`: how the cached background
    pattern is tiled over the terminal area, and where the fixed-size game
    screen is placed in it.  Drawing itself (paragraphs, styles, buffers) is
    not modelled; a tile or the screen is just the rectangle handed to the
    drawing call. */
module Ui {
  import opened Uints

  /** The minimum terminal size; one board cell is two columns wide. */
  const SCREEN_WIDTH: u16 := 32 * 2
  const SCREEN_HEIGHT: u16 := 28

  /** The colour pattern of the cached background, one entry per cell. */
  const BACKGROUND_PATTERN: seq<seq<u8>> := [
    [1, 1, 2, 1, 1, 1, 3, 3, 4, 4, 1, 1],
    [3, 3, 2, 2, 1, 2, 3, 3, 4, 1, 5, 1],
    [3, 3, 5, 2, 1, 2, 2, 1, 1, 1, 5, 1],
    [6, 6, 5, 3, 3, 4, 2, 6, 6, 6, 5, 6],
    [3, 6, 5, 3, 3, 4, 4, 2, 2, 6, 5, 3],
    [3, 4, 5, 1, 1, 4, 2, 2, 3, 3, 2, 3],
    [4, 4, 4, 7, 1, 3, 3, 5, 3, 3, 2, 2],
    [3, 3, 7, 7, 1, 3, 3, 5, 4, 4, 4, 2],
    [3, 3, 7, 1, 6, 6, 6, 5, 6, 4, 7, 7],
    [7, 1, 1, 1, 7, 7, 6, 5, 6, 5, 5, 7],
    [1, 5, 6, 6, 6, 7, 7, 6, 6, 5, 3, 3],
    [1, 5, 5, 5, 6, 1, 1, 1, 4, 5, 3, 3]
  ]

  /** A terminal rectangle, origin at the top-left corner. */
  datatype Rect = Rect(x: u16, y: u16, width: u16, height: u16)

  /** A stretch `[start, start + len)` of one axis. */
  datatype Span = Span(start: u16, len: u16)

  /** Size of the cached background in terminal cells: each pattern entry
      is drawn two columns wide. */
  datatype Background = Background(width: u16, height: u16)

  function CachedBackground(): (b: Background)
    ensures b.width == 24 && b.height == 12
  {
    Background(|BACKGROUND_PATTERN[0]| * 2, |BACKGROUND_PATTERN|)
  }

  predicate InSpan(s: Span, p: int) {
    s.start <= p < s.start + s.len
  }

  predicate InRect(r: Rect, px: int, py: int) {
    r.x <= px < r.x + r.width && r.y <= py < r.y + r.height
  }

  /** `calc_tile_size`: how much of a tile of length `maxTileSize` placed at
      `tileStart` is left once it is cut off at `totalSize`.  The result is
      exactly the overlap of the tile with `[0, totalSize)`. */
  function CalcTileSize(tileStart: u16, totalSize: u16, maxTileSize: u16): (r: u16)
    ensures r <= maxTileSize
    ensures tileStart >= totalSize ==> r == 0
    ensures tileStart <= totalSize ==> tileStart + r <= totalSize
    ensures r == maxTileSize <==> tileStart + maxTileSize <= totalSize || maxTileSize == 0
    ensures forall p :: InSpan(Span(tileStart, r), p) <==> InSpan(Span(tileStart, maxTileSize), p) && p < totalSize
  {
    var remainingSize := SaturatingSub16(totalSize, tileStart);
    Min16(maxTileSize, remainingSize)
  }

  /** How many tiles of length `size` the source lays along an axis of
      length `total`: one more than fit whole, so the last tile may be cut
      short or even empty.  The count is a `u16`; with tiles at least two
      long it cannot overflow (the cached background is 24×12). */
  function TileCount(total: u16, size: u16): (n: u16)
    requires size > 1
    ensures n * size > total
    ensures (n - 1) * size <= total
  {
    DivBounds(total, size);
    total / size + 1
  }

  lemma DivBounds(total: nat, size: nat)
    requires size > 0
    ensures (total / size) * size <= total < (total / size + 1) * size
  {
    var q, m := total / size, total % size;
    assert total == q * size + m;
    assert (q + 1) * size == q * size + size;
  }

  /** Sum of the lengths of a run of spans. */
  function SpanTotal(spans: seq<Span>): nat {
    if spans == [] then 0 else SpanTotal(spans[..|spans| - 1]) + spans[|spans| - 1].len
  }

  ghost predicate Covered(spans: seq<Span>, p: int) {
    exists i :: 0 <= i < |spans| && InSpan(spans[i], p)
  }

  lemma {:induction false} ProductStep(i: nat, j: nat, size: nat)
    requires i < j
    ensures i * size + size <= j * size
    decreases j - i
  {
    if j == i + 1 {
      assert (i + 1) * size == i * size + size;
    } else {
      ProductStep(i, j - 1, size);
      assert j * size == (j - 1) * size + size;
    }
  }

  lemma ProductBound(k: nat, total: nat, size: nat)
    requires size > 0 && k <= total / size
    ensures k * size <= total
  {
    DivBounds(total, size);
    if k < total / size {
      ProductStep(k, total / size, size);
    }
  }

  lemma CoveredExtends(spans: seq<Span>, s: Span, p: int)
    requires Covered(spans, p)
    ensures Covered(spans + [s], p)
  {
    var i :| 0 <= i < |spans| && InSpan(spans[i], p);
    assert (spans + [s])[i] == spans[i];
  }

  /** Where the render loop would put the next tile: one full tile length
      past the start of the last one laid (0 before the first). */
  function Reach(spans: seq<Span>, size: u16): int {
    if spans == [] then 0 else spans[|spans| - 1].start + size
  }

  /** The spans of one axis follow each other without overlapping. */
  ghost predicate Ordered(spans: seq<Span>) {
    forall i, j :: 0 <= i < j < |spans| ==> spans[i].start + spans[i].len <= spans[j].start
  }

  /** Tile 0 starts at 0 and each further tile starts one full tile length
      after the one before it. */
  ghost predicate Stepped(spans: seq<Span>, size: u16) {
    && (|spans| > 0 ==> spans[0].start == 0)
    && (forall i :: 0 < i < |spans| ==> spans[i].start == spans[i - 1].start + size)
  }

  /** What the render loop has laid so far along one axis: evenly stepped
      tiles, each inside the area and at most one tile long, in order; their
      lengths add up to the part of the axis reached, and every position of
      that part is covered. */
  ghost predicate TilesSoFar(spans: seq<Span>, total: u16, size: u16) {
    && Stepped(spans, size)
    && (forall i :: 0 <= i < |spans| ==> spans[i].start + spans[i].len <= total)
    && (forall i :: 0 <= i < |spans| ==> spans[i].len <= size)
    && Ordered(spans)
    && SpanTotal(spans) == (if Reach(spans, size) <= total then Reach(spans, size) else total)
    && (forall p :: 0 <= p < total && p < Reach(spans, size) ==> Covered(spans, p))
  }

  /** A span that starts where every earlier span has ended keeps the run
      in order. */
  lemma OrderedExtends(spans: seq<Span>, s: Span)
    requires Ordered(spans)
    requires forall i :: 0 <= i < |spans| ==> spans[i].start + spans[i].len <= s.start
    ensures Ordered(spans + [s])
  {
    var after := spans + [s];
    forall i, j | 0 <= i < j < |after|
      ensures after[i].start + after[i].len <= after[j].start
    {
      assert after[i] == spans[i];
    }
  }

  /** Every span laid so far ends at or before `Reach`. */
  lemma EndsBeforeReach(spans: seq<Span>, total: u16, size: u16)
    requires TilesSoFar(spans, total, size)
    ensures forall i :: 0 <= i < |spans| ==> spans[i].start + spans[i].len <= Reach(spans, size)
  {
    forall i | 0 <= i < |spans|
      ensures spans[i].start + spans[i].len <= Reach(spans, size)
    {
      var last := |spans| - 1;
      if i < last {
        assert spans[i].start + spans[i].len <= spans[last].start;
      }
    }
  }

  /** A span laid at `Reach` keeps the run evenly stepped. */
  lemma SteppedExtends(spans: seq<Span>, size: u16, s: Span)
    requires Stepped(spans, size) && s.start == Reach(spans, size)
    ensures Stepped(spans + [s], size)
  {
    var after := spans + [s];
    forall i | 0 < i < |after|
      ensures after[i].start == after[i - 1].start + size
    {
      if i < |spans| {
        assert after[i] == spans[i] && after[i - 1] == spans[i - 1];
      }
    }
  }

  /** A span that covers the positions from its start up to the next
      `Reach` extends the covered prefix of the axis. */
  lemma CoverExtends(spans: seq<Span>, total: u16, size: u16, s: Span)
    requires forall p :: 0 <= p < total && p < s.start ==> Covered(spans, p)
    requires forall p :: s.start <= p < total && p < s.start + size ==> InSpan(s, p)
    ensures forall p :: 0 <= p < total && p < s.start + size ==> Covered(spans + [s], p)
  {
    forall p | 0 <= p < total && p < s.start + size
      ensures Covered(spans + [s], p)
    {
      if p < s.start {
        CoveredExtends(spans, s, p);
      } else {
        assert InSpan((spans + [s])[|spans|], p);
      }
    }
  }

  /** Laying the next tile at `Reach` keeps `TilesSoFar`. */
  lemma TileStep(spans: seq<Span>, total: u16, size: u16)
    requires TilesSoFar(spans, total, size)
    requires Reach(spans, size) <= total
    ensures var start: u16 := Reach(spans, size);
      TilesSoFar(spans + [Span(start, CalcTileSize(start, total, size))], total, size)
  {
    var start: u16 := Reach(spans, size);
    var s := Span(start, CalcTileSize(start, total, size));
    var after := spans + [s];
    assert after[..|after| - 1] == spans;
    assert Reach(after, size) == start + size;
    SteppedExtends(spans, size, s);
    EndsBeforeReach(spans, total, size);
    OrderedExtends(spans, s);
    CoverExtends(spans, total, size, s);
    assert SpanTotal(after) == SpanTotal(spans) + s.len;
    assert forall i :: 0 <= i < |after| ==> after[i].start + after[i].len <= total && after[i].len <= size by {
      forall i | 0 <= i < |after|
        ensures after[i].start + after[i].len <= total && after[i].len <= size
      {
        if i < |spans| {
          assert after[i] == spans[i];
        }
      }
    }
  }

  /** Tile `i` of an evenly stepped run starts at `i * size`, the offset
      the render loop computes. */
  lemma {:induction false} SteppedStarts(spans: seq<Span>, size: u16, i: nat)
    requires Stepped(spans, size) && i < |spans|
    ensures spans[i].start == i * size
  {
    if i > 0 {
      SteppedStarts(spans, size, i - 1);
      assert i * size == (i - 1) * size + size;
    }
  }

  /** The tiles along one axis, in the order the render loop visits them:
      the first starts at 0 and each next one a full tile length later, each
      is cut off at the area's edge, they follow each other without
      overlapping, and their lengths add up to exactly the area's length,
      so every position of the axis is drawn by exactly one tile. */
  method TileSpans(total: u16, size: u16) returns (spans: seq<Span>)
    requires size > 1
    ensures |spans| == TileCount(total, size) as int
    ensures |spans| > 0 && spans[0].start == 0
    ensures forall i :: 0 < i < |spans| ==> spans[i].start == spans[i - 1].start + size
    ensures forall i :: 0 <= i < |spans| ==> spans[i].start + spans[i].len <= total
    ensures forall i, j :: 0 <= i < j < |spans| ==> spans[i].start + spans[i].len <= spans[j].start
    ensures SpanTotal(spans) == total
    ensures forall p :: 0 <= p < total ==> Covered(spans, p)
  {
    var tiles := TileCount(total, size);
    spans := [];
    var tile: nat := 0;
    while tile < tiles
      invariant tile <= tiles
      invariant |spans| == tile
      invariant Reach(spans, size) == tile * size
      invariant TilesSoFar(spans, total, size)
    {
      ProductBound(tile, total, size);
      var start: u16 := tile * size;
      TileStep(spans, total, size);
      spans := spans + [Span(start, CalcTileSize(start, total, size))];
      assert (tile + 1) * size == start + size;
      tile := tile + 1;
    }
  }

  /** Row `j`, column `i`: the rectangle of vertical span `j` and
      horizontal span `i`. */
  function Grid(xs: seq<Span>, ys: seq<Span>): seq<seq<Rect>> {
    seq(|ys|, j requires 0 <= j < |ys| =>
      seq(|xs|, i requires 0 <= i < |xs| => Rect(xs[i].start, ys[j].start, xs[i].len, ys[j].len)))
  }

  ghost predicate CellCovered(rows: seq<seq<Rect>>, px: int, py: int) {
    exists j, i :: 0 <= j < |rows| && 0 <= i < |rows[j]| && InRect(rows[j][i], px, py)
  }

  /** Two cells of a grid of non-overlapping spans never share a cell. */
  lemma GridDisjoint(xs: seq<Span>, ys: seq<Span>)
    requires Ordered(xs) && Ordered(ys)
    ensures var rows := Grid(xs, ys);
      forall j1, i1, j2, i2, px, py ::
        0 <= j1 < |rows| && 0 <= i1 < |rows[j1]| && 0 <= j2 < |rows| && 0 <= i2 < |rows[j2]| &&
        InRect(rows[j1][i1], px, py) && InRect(rows[j2][i2], px, py)
        ==> j1 == j2 && i1 == i2
  {
    var rows := Grid(xs, ys);
    forall j1, i1, j2, i2, px, py |
      0 <= j1 < |rows| && 0 <= i1 < |rows[j1]| && 0 <= j2 < |rows| && 0 <= i2 < |rows[j2]| &&
      InRect(rows[j1][i1], px, py) && InRect(rows[j2][i2], px, py)
      ensures j1 == j2 && i1 == i2
    {
      assert InSpan(xs[i1], px) && InSpan(xs[i2], px);
      assert InSpan(ys[j1], py) && InSpan(ys[j2], py);
    }
  }

  /** A grid of spans that cover both axes covers the whole area. */
  lemma GridCovers(xs: seq<Span>, ys: seq<Span>, width: int, height: int)
    requires forall p :: 0 <= p < width ==> Covered(xs, p)
    requires forall p :: 0 <= p < height ==> Covered(ys, p)
    ensures forall px, py :: 0 <= px < width && 0 <= py < height ==> CellCovered(Grid(xs, ys), px, py)
  {
    var rows := Grid(xs, ys);
    forall px, py | 0 <= px < width && 0 <= py < height
      ensures CellCovered(rows, px, py)
    {
      assert Covered(xs, px) && Covered(ys, py);
      var i :| 0 <= i < |xs| && InSpan(xs[i], px);
      var j :| 0 <= j < |ys| && InSpan(ys[j], py);
      assert InRect(rows[j][i], px, py);
    }
  }

  /** The tiling of `CachedBackground::render`: row `j`, column `i` is the
      rectangle of vertical tile `j` and horizontal tile `i`, visited in the
      order of the source's nested loops.  Every tile lies inside the area,
      no two tiles share a cell, and every cell of the area belongs to some
      tile. */
  method TileRects(area: Rect, bg: Background) returns (rows: seq<seq<Rect>>)
    requires bg.width > 1 && bg.height > 1
    ensures |rows| == TileCount(area.height, bg.height) as int
    ensures forall j :: 0 <= j < |rows| ==> |rows[j]| == TileCount(area.width, bg.width) as int
    ensures forall j, i :: 0 <= j < |rows| && 0 <= i < |rows[j]| ==>
      rows[j][i].x + rows[j][i].width <= area.width && rows[j][i].y + rows[j][i].height <= area.height
    ensures forall j1, i1, j2, i2, px, py ::
      0 <= j1 < |rows| && 0 <= i1 < |rows[j1]| && 0 <= j2 < |rows| && 0 <= i2 < |rows[j2]| &&
      InRect(rows[j1][i1], px, py) && InRect(rows[j2][i2], px, py)
      ==> j1 == j2 && i1 == i2
    ensures forall px, py :: 0 <= px < area.width && 0 <= py < area.height ==> CellCovered(rows, px, py)
  {
    var ys := TileSpans(area.height, bg.height);
    var xs := TileSpans(area.width, bg.width);
    rows := Grid(xs, ys);
    GridDisjoint(xs, ys);
    GridCovers(xs, ys, area.width, area.height);
  }

  /** What `Game::render` draws first: a notice when the terminal is too
      small, otherwise the fixed-size game screen. */
  datatype Layout = TooSmall | Centred(screen: Rect)

  /** The size guard and centring of `Game::render`.  Past the guard the
      two subtractions cannot underflow, the screen lies inside the area,
      and the space left of it and the space right of it differ by at most
      one cell (likewise above and below). */
  function ScreenLayout(area: Rect): (l: Layout)
    ensures l.TooSmall? <==> area.width < SCREEN_WIDTH || area.height < SCREEN_HEIGHT
    ensures l.Centred? ==> l.screen.width == SCREEN_WIDTH && l.screen.height == SCREEN_HEIGHT
    ensures l.Centred? ==>
      l.screen.x + l.screen.width <= area.width && l.screen.y + l.screen.height <= area.height
    ensures l.Centred? ==>
      0 <= (area.width - (l.screen.x + l.screen.width)) - l.screen.x <= 1 &&
      0 <= (area.height - (l.screen.y + l.screen.height)) - l.screen.y <= 1
  {
    if area.width < SCREEN_WIDTH || area.height < SCREEN_HEIGHT then TooSmall
    else
      var center := (area.width / 2, area.height / 2);
      Centred(Rect(
        CheckedSub16(center.0, SCREEN_WIDTH / 2),
        CheckedSub16(center.1, SCREEN_HEIGHT / 2),
        SCREEN_WIDTH,
        SCREEN_HEIGHT))
  }
}
