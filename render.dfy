/**
 * Drawing a finished QR symbol: `buildSvgFromQrMatrix` writes one unit
 * square per dark module into an SVG path, and `renderQrToCanvas` fills one
 * `scale × scale` square per dark module on a canvas, after a background fill.
 * The QR engine is seen only through its module count and `isDark`.
 */
module Render {
  import opened Strings
  import opened Canvas2D

  /** A module position: its row and column. */
  datatype Cell = Cell(row: nat, col: nat)

  /** What the code reads from the QR engine: `getModuleCount()` and `isDark(row, col)`. */
  datatype Matrix = Matrix(count: nat, isDark: (nat, nat) -> bool)

  // ---------------------------------------------------------------------------
  // The row-major scan

  /** The dark modules of row `r` in columns `0 .. c-1`, left to right. */
  function RowCells(m: Matrix, r: nat, c: nat): seq<Cell> {
    if c == 0 then []
    else RowCells(m, r, c - 1) + (if m.isDark(r, c - 1) then [Cell(r, c - 1)] else [])
  }

  /** The dark modules of the complete rows `0 .. r-1`, in row-major order. */
  function RowsCells(m: Matrix, r: nat): seq<Cell> {
    if r == 0 then [] else RowsCells(m, r - 1) + RowCells(m, r - 1, m.count)
  }

  /** Every dark module of the symbol, in the order the nested row/column loops visit them. */
  function DarkCells(m: Matrix): seq<Cell> {
    RowsCells(m, m.count)
  }

  /** `p` comes before `q` in row-major order. */
  predicate Before(p: Cell, q: Cell) {
    p.row < q.row || (p.row == q.row && p.col < q.col)
  }

  predicate RowMajor(cells: seq<Cell>) {
    forall i, j :: 0 <= i < j < |cells| ==> Before(cells[i], cells[j])
  }

  lemma {:induction false} RowCellsMembers(m: Matrix, r: nat, c: nat)
    ensures forall p :: p in RowCells(m, r, c) <==> p.row == r && p.col < c && m.isDark(p.row, p.col)
    ensures RowMajor(RowCells(m, r, c))
  {
    if c > 0 {
      RowCellsMembers(m, r, c - 1);
      var a := RowCells(m, r, c - 1);
      var b: seq<Cell> := if m.isDark(r, c - 1) then [Cell(r, c - 1)] else [];
      forall i, j | 0 <= i < j < |a + b| ensures Before((a + b)[i], (a + b)[j]) {
        if j >= |a| {
          assert (a + b)[i] in a;
        }
      }
    }
  }

  lemma {:induction false} RowsCellsMembers(m: Matrix, r: nat)
    ensures forall p :: p in RowsCells(m, r) <==> p.row < r && p.col < m.count && m.isDark(p.row, p.col)
    ensures RowMajor(RowsCells(m, r))
  {
    if r > 0 {
      RowsCellsMembers(m, r - 1);
      RowCellsMembers(m, r - 1, m.count);
      var a := RowsCells(m, r - 1);
      var b := RowCells(m, r - 1, m.count);
      forall i, j | 0 <= i < j < |a + b| ensures Before((a + b)[i], (a + b)[j]) {
        if i >= |a| {
          assert (a + b)[i] == b[i - |a|] && (a + b)[j] == b[j - |a|];
        } else if j >= |a| {
          assert (a + b)[i] in a && (a + b)[j] in b;
        }
      }
    }
  }

  /**
   * The scan lists exactly the dark modules of the `count × count` grid, each
   * once, in row-major order.
   */
  lemma DarkCellsExact(m: Matrix)
    ensures forall r: nat, c: nat :: Cell(r, c) in DarkCells(m) <==> r < m.count && c < m.count && m.isDark(r, c)
    ensures RowMajor(DarkCells(m))
    ensures forall i, j :: 0 <= i < j < |DarkCells(m)| ==> DarkCells(m)[i] != DarkCells(m)[j]
  {
    RowsCellsMembers(m, m.count);
  }

  // ---------------------------------------------------------------------------
  // SVG

  /** The path segment for the unit square whose top-left corner is `(x, y)`. */
  function Segment(x: nat, y: nat): string {
    SegmentOf(NatToString(x), NatToString(y))
  }

  /** `M<x> <y>h1v1h-1z`: move to the corner, then a unit square drawn clockwise and closed. */
  function SegmentOf(x: string, y: string): string {
    "M" + x + " " + y + "h1v1h-1z"
  }

  /** The path data for the listed cells, each shifted by the quiet zone, in list order. */
  function PathOf(cells: seq<Cell>, quietZone: nat): string {
    if cells == [] then ""
    else
      var p := cells[|cells| - 1];
      PathOf(cells[..|cells| - 1], quietZone) + Segment(p.col + quietZone, p.row + quietZone)
  }

  /** Listing one more cell appends its segment. */
  lemma PathSnoc(cells: seq<Cell>, p: Cell, quietZone: nat)
    ensures PathOf(cells + [p], quietZone) == PathOf(cells, quietZone) + Segment(p.col + quietZone, p.row + quietZone)
  {
    assert (cells + [p])[..|cells|] == cells;
  }

  /** The path of two lists one after the other is the two paths one after the other. */
  lemma {:induction false} PathAppend(a: seq<Cell>, b: seq<Cell>, quietZone: nat)
    ensures PathOf(a + b, quietZone) == PathOf(a, quietZone) + PathOf(b, quietZone)
  {
    if b == [] {
      assert a + b == a;
      assert PathOf(a, quietZone) + PathOf(b, quietZone) == PathOf(a, quietZone) + "";
    } else {
      var init, p := b[..|b| - 1], b[|b| - 1];
      assert b == init + [p];
      assert a + b == (a + init) + [p];
      PathAppend(a, init, quietZone);
      PathSnoc(a + init, p, quietZone);
      PathSnoc(init, p, quietZone);
      AppendAssoc(PathOf(a, quietZone), PathOf(init, quietZone), Segment(p.col + quietZone, p.row + quietZone));
    }
  }

  lemma {:induction false} CountDigits(s: string)
    requires forall k :: 0 <= k < |s| ==> IsDigit(s[k])
    ensures Count(s, 'M') == 0
  {
    assert forall k :: 0 <= k < |s| ==> s[k] != 'M';
    CountAbsent(s, 'M');
  }

  /** Each segment holds exactly one move command. */
  lemma SegmentMoves(x: nat, y: nat)
    ensures Count(Segment(x, y), 'M') == 1
  {
    var sx, sy := NatToString(x), NatToString(y);
    CountDigits(sx);
    CountDigits(sy);
    CountAppend("M", sx, 'M');
    CountAppend("M" + sx, " ", 'M');
    CountAppend("M" + sx + " ", sy, 'M');
    CountAppend("M" + sx + " " + sy, "h1v1h-1z", 'M');
    CountAbsent(" ", 'M');
    CountAbsent("h1v1h-1z", 'M');
  }

  /** The path for `n` cells holds exactly `n` move commands. */
  lemma {:induction false} PathMoves(cells: seq<Cell>, quietZone: nat)
    ensures Count(PathOf(cells, quietZone), 'M') == |cells|
  {
    if cells != [] {
      var p := cells[|cells| - 1];
      PathMoves(cells[..|cells| - 1], quietZone);
      SegmentMoves(p.col + quietZone, p.row + quietZone);
      CountAppend(PathOf(cells[..|cells| - 1], quietZone), Segment(p.col + quietZone, p.row + quietZone), 'M');
    }
  }

  /** What the column loop appends for row `r` after columns `0 .. c-1`. */
  function RowPath(m: Matrix, r: nat, c: nat, quietZone: nat): string {
    if c == 0 then ""
    else RowPath(m, r, c - 1, quietZone) + (if m.isDark(r, c - 1) then Segment(c - 1 + quietZone, r + quietZone) else "")
  }

  /** What the row loop has accumulated after rows `0 .. r-1`. */
  function GridPath(m: Matrix, r: nat, quietZone: nat): string {
    if r == 0 then "" else GridPath(m, r - 1, quietZone) + RowPath(m, r - 1, m.count, quietZone)
  }

  /** A row's part of the path is the path of that row's dark modules. */
  lemma {:induction false} RowPathCells(m: Matrix, r: nat, c: nat, quietZone: nat)
    ensures RowPath(m, r, c, quietZone) == PathOf(RowCells(m, r, c), quietZone)
  {
    if c > 0 {
      var d: nat := c - 1;
      RowPathCells(m, r, d, quietZone);
      if m.isDark(r, d) {
        assert RowCells(m, r, c) == RowCells(m, r, d) + [Cell(r, d)];
        assert RowPath(m, r, c, quietZone) == RowPath(m, r, d, quietZone) + Segment(d + quietZone, r + quietZone);
        PathSnoc(RowCells(m, r, d), Cell(r, d), quietZone);
      } else {
        assert RowCells(m, r, c) == RowCells(m, r, d);
        assert RowPath(m, r, c, quietZone) == RowPath(m, r, d, quietZone);
      }
    }
  }

  /** The rows' part of the path is the path of those rows' dark modules. */
  lemma {:induction false} GridPathCells(m: Matrix, r: nat, quietZone: nat)
    ensures GridPath(m, r, quietZone) == PathOf(RowsCells(m, r), quietZone)
  {
    if r > 0 {
      var q: nat := r - 1;
      var done, row := RowsCells(m, q), RowCells(m, q, m.count);
      assert GridPath(m, r, quietZone) == GridPath(m, q, quietZone) + RowPath(m, q, m.count, quietZone);
      assert RowsCells(m, r) == done + row;
      GridPathCells(m, q, quietZone);
      RowPathCells(m, q, m.count, quietZone);
      PathAppend(done, row, quietZone);
    }
  }

  /** Entering the column loop: nothing of the row is appended yet. */
  lemma RowPathStart(m: Matrix, row: nat, quietZone: nat, path: string)
    requires path == GridPath(m, row, quietZone)
    ensures path == GridPath(m, row, quietZone) + RowPath(m, row, 0, quietZone)
  {
  }

  /** One step of the column loop: a dark module appends its segment, a light one nothing. */
  lemma RowPathStep(m: Matrix, row: nat, col: nat, quietZone: nat, path: string)
    requires path == GridPath(m, row, quietZone) + RowPath(m, row, col, quietZone)
    ensures m.isDark(row, col) ==>
      path + Segment(col + quietZone, row + quietZone) == GridPath(m, row, quietZone) + RowPath(m, row, col + 1, quietZone)
    ensures !m.isDark(row, col) ==> path == GridPath(m, row, quietZone) + RowPath(m, row, col + 1, quietZone)
  {
  }

  /** The fixed markup around the view-box side, the background colour, the path data and the foreground colour. */
  const SvgHead: string := "<svg xmlns=\"http://www.w3.org/2000/svg\" viewBox=\"0 0 "
  const SvgAfterViewBox: string := "\" shape-rendering=\"crispEdges\"><rect width=\"100%\" height=\"100%\" fill=\""
  const SvgAfterBackground: string := "\"/><path d=\""
  const SvgAfterPath: string := "\" fill=\""
  const SvgTail: string := "\"/></svg>"

  /** The SVG document: square view box of side `dim`, background rectangle, then the module path. */
  function SvgDocument(dim: nat, path: string, fg: string, bg: string): string {
    var side := NatToString(dim);
    SvgHead + (side + (" " + (side + (SvgAfterViewBox + (bg + (SvgAfterBackground + (path + (SvgAfterPath + (fg + SvgTail)))))))))
  }

  /** `buildSvgFromQrMatrix(qr, { quietZone, fg, bg })`: the path, then the document around it. */
  method BuildSvgFromQrMatrix(m: Matrix, quietZone: nat, fg: string, bg: string) returns (svg: string)
    ensures svg == SvgDocument(m.count + 2 * quietZone, PathOf(DarkCells(m), quietZone), fg, bg)
  {
    var path := ModulePath(m, quietZone);
    svg := SvgDocument(m.count + 2 * quietZone, path, fg, bg);
  }

  /** The nested row/column loops of `buildSvgFromQrMatrix`: one segment per dark module, in scan order. */
  method ModulePath(m: Matrix, quietZone: nat) returns (path: string)
    ensures path == PathOf(DarkCells(m), quietZone)
  {
    path := "";
    var row: nat := 0;
    while row < m.count
      invariant row <= m.count
      invariant path == GridPath(m, row, quietZone)
    {
      var col: nat := 0;
      RowPathStart(m, row, quietZone, path);
      while col < m.count
        invariant col <= m.count
        invariant path == GridPath(m, row, quietZone) + RowPath(m, row, col, quietZone)
      {
        RowPathStep(m, row, col, quietZone, path);
        if m.isDark(row, col) {
          path := path + Segment(col + quietZone, row + quietZone);
        }
        col := col + 1;
      }
      row := row + 1;
    }
    GridPathCells(m, m.count, quietZone);
  }

  /**
   * The path of the SVG side draws one unit square per dark module, at the
   * module's column and row shifted by the quiet zone, each module once, in
   * row-major order.
   */
  lemma SvgModules(m: Matrix, quietZone: nat)
    ensures Count(PathOf(DarkCells(m), quietZone), 'M') == |DarkCells(m)|
    ensures forall r: nat, c: nat :: Cell(r, c) in DarkCells(m) <==> r < m.count && c < m.count && m.isDark(r, c)
    ensures RowMajor(DarkCells(m))
  {
    PathMoves(DarkCells(m), quietZone);
    DarkCellsExact(m);
  }

  // ---------------------------------------------------------------------------
  // Canvas

  /** The fill for one dark module: `scale × scale`, `margin` in from the top-left corner. */
  function ModuleFill(p: Cell, margin: nat, scale: nat, fg: string): Op {
    FillRect(fg, margin + p.col * scale, margin + p.row * scale, scale, scale)
  }

  /** One fill per listed cell, in list order. */
  function FillsOf(cells: seq<Cell>, margin: nat, scale: nat, fg: string): (r: seq<Op>)
    ensures |r| == |cells|
    ensures forall k :: 0 <= k < |cells| ==> r[k] == ModuleFill(cells[k], margin, scale, fg)
  {
    seq(|cells|, k requires 0 <= k < |cells| => ModuleFill(cells[k], margin, scale, fg))
  }

  /** The fills of two lists one after the other are the two fill lists one after the other. */
  lemma FillsAppend(a: seq<Cell>, b: seq<Cell>, margin: nat, scale: nat, fg: string)
    ensures FillsOf(a + b, margin, scale, fg) == FillsOf(a, margin, scale, fg) + FillsOf(b, margin, scale, fg)
  {
    var l, r := FillsOf(a + b, margin, scale, fg), FillsOf(a, margin, scale, fg) + FillsOf(b, margin, scale, fg);
    forall k | 0 <= k < |l| ensures l[k] == r[k] {
      if k >= |a| {
        assert (a + b)[k] == b[k - |a|];
      }
    }
  }

  /** What the column loop fills for row `r` after columns `0 .. c-1`. */
  function RowFills(m: Matrix, r: nat, c: nat, margin: nat, scale: nat, fg: string): seq<Op> {
    if c == 0 then []
    else RowFills(m, r, c - 1, margin, scale, fg) + (if m.isDark(r, c - 1) then [ModuleFill(Cell(r, c - 1), margin, scale, fg)] else [])
  }

  /** What the row loop has filled after rows `0 .. r-1`. */
  function GridFills(m: Matrix, r: nat, margin: nat, scale: nat, fg: string): seq<Op> {
    if r == 0 then [] else GridFills(m, r - 1, margin, scale, fg) + RowFills(m, r - 1, m.count, margin, scale, fg)
  }

  /** A row's fills are the fills of that row's dark modules. */
  lemma {:induction false} RowFillsCells(m: Matrix, r: nat, c: nat, margin: nat, scale: nat, fg: string)
    ensures RowFills(m, r, c, margin, scale, fg) == FillsOf(RowCells(m, r, c), margin, scale, fg)
  {
    if c > 0 {
      RowFillsCells(m, r, c - 1, margin, scale, fg);
      var before := RowCells(m, r, c - 1);
      if m.isDark(r, c - 1) {
        FillsAppend(before, [Cell(r, c - 1)], margin, scale, fg);
      } else {
        assert RowCells(m, r, c) == before;
        assert RowFills(m, r, c, margin, scale, fg) == RowFills(m, r, c - 1, margin, scale, fg) + [];
      }
    }
  }

  /** The rows' fills are the fills of those rows' dark modules. */
  lemma {:induction false} GridFillsCells(m: Matrix, r: nat, margin: nat, scale: nat, fg: string)
    ensures GridFills(m, r, margin, scale, fg) == FillsOf(RowsCells(m, r), margin, scale, fg)
  {
    if r > 0 {
      GridFillsCells(m, r - 1, margin, scale, fg);
      RowFillsCells(m, r - 1, m.count, margin, scale, fg);
      FillsAppend(RowsCells(m, r - 1), RowCells(m, r - 1, m.count), margin, scale, fg);
    }
  }

  /** Entering the column loop: nothing of the row is filled yet. */
  lemma RowFillsStart(m: Matrix, row: nat, margin: nat, scale: nat, fg: string, before: seq<Op>, ops: seq<Op>)
    requires ops == before + GridFills(m, row, margin, scale, fg)
    ensures ops == before + (GridFills(m, row, margin, scale, fg) + RowFills(m, row, 0, margin, scale, fg))
  {
  }

  /** One step of the column loop: a dark module adds its fill, a light one nothing. */
  lemma RowFillsStep(m: Matrix, row: nat, col: nat, margin: nat, scale: nat, fg: string, before: seq<Op>, ops: seq<Op>)
    requires ops == before + (GridFills(m, row, margin, scale, fg) + RowFills(m, row, col, margin, scale, fg))
    ensures m.isDark(row, col) ==>
      ops + [FillRect(fg, margin + col * scale, margin + row * scale, scale, scale)]
      == before + (GridFills(m, row, margin, scale, fg) + RowFills(m, row, col + 1, margin, scale, fg))
    ensures !m.isDark(row, col) ==>
      ops == before + (GridFills(m, row, margin, scale, fg) + RowFills(m, row, col + 1, margin, scale, fg))
  {
  }

  /** Leaving the column loop: the row's fills join the rows before it. */
  lemma RowFillsEnd(m: Matrix, row: nat, margin: nat, scale: nat, fg: string, before: seq<Op>, ops: seq<Op>)
    requires ops == before + (GridFills(m, row, margin, scale, fg) + RowFills(m, row, m.count, margin, scale, fg))
    ensures ops == before + GridFills(m, row + 1, margin, scale, fg)
  {
  }

  /** Side of the bitmap: the modules plus a quiet-zone margin on each side. */
  function CanvasSide(m: Matrix, scale: nat, quietZone: nat): nat {
    m.count * scale + quietZone * scale * 2
  }

  /** What `renderQrToCanvas` draws: the full-surface background, then the dark modules. */
  function RasterOps(m: Matrix, scale: nat, quietZone: nat, fg: string, bg: string): seq<Op> {
    var size := CanvasSide(m, scale, quietZone);
    [FillRect(bg, 0, 0, size, size)] + FillsOf(DarkCells(m), quietZone * scale, scale, fg)
  }

  /**
   * `renderQrToCanvas(qr, canvas, { scale, quietZone, fg, bg })`. The bitmap is
   * resized first; without a 2D context the call fails (`false`, where the
   * source throws) before any fill, otherwise smoothing is off and the log
   * holds exactly `RasterOps`.
   */
  method RenderQrToCanvas(m: Matrix, canvas: Canvas, scale: nat, quietZone: nat, fg: string, bg: string)
    returns (ok: bool)
    modifies canvas
    ensures canvas.width == CanvasSide(m, scale, quietZone) && canvas.height == CanvasSide(m, scale, quietZone)
    ensures ok == canvas.hasContext
    ensures !ok ==> canvas.ops == []
    ensures ok ==> canvas.ops == RasterOps(m, scale, quietZone, fg, bg) && canvas.fillStyle == fg && !canvas.smoothing
  {
    var count := m.count;
    var margin := quietZone * scale;
    var size := count * scale + margin * 2;
    canvas.SetWidth(size);
    canvas.SetHeight(size);
    if !canvas.hasContext {
      return false;
    }
    canvas.SetSmoothing(false);
    canvas.SetFillStyle(bg);
    canvas.Fill(0, 0, size, size);
    canvas.SetFillStyle(fg);
    FillModules(m, canvas, margin, scale);
    return true;
  }

  /** The nested row/column loops of `renderQrToCanvas`: one fill per dark module, in the current style. */
  method FillModules(m: Matrix, canvas: Canvas, margin: nat, scale: nat)
    modifies canvas
    ensures canvas.ops == old(canvas.ops) + FillsOf(DarkCells(m), margin, scale, old(canvas.fillStyle))
    ensures canvas.width == old(canvas.width) && canvas.height == old(canvas.height)
    ensures canvas.fillStyle == old(canvas.fillStyle) && canvas.smoothing == old(canvas.smoothing)
  {
    var count := m.count;
    ghost var before := canvas.ops;
    ghost var fg := canvas.fillStyle;
    var row: nat := 0;
    while row < count
      invariant row <= count
      invariant canvas.ops == before + GridFills(m, row, margin, scale, fg)
      invariant canvas.width == old(canvas.width) && canvas.height == old(canvas.height)
      invariant canvas.fillStyle == fg && canvas.smoothing == old(canvas.smoothing)
    {
      var col: nat := 0;
      RowFillsStart(m, row, margin, scale, fg, before, canvas.ops);
      while col < count
        invariant col <= count
        invariant canvas.ops == before + (GridFills(m, row, margin, scale, fg) + RowFills(m, row, col, margin, scale, fg))
        invariant canvas.width == old(canvas.width) && canvas.height == old(canvas.height)
        invariant canvas.fillStyle == fg && canvas.smoothing == old(canvas.smoothing)
      {
        RowFillsStep(m, row, col, margin, scale, fg, before, canvas.ops);
        if m.isDark(row, col) {
          canvas.Fill(margin + col * scale, margin + row * scale, scale, scale);
        }
        col := col + 1;
      }
      RowFillsEnd(m, row, margin, scale, fg, before, canvas.ops);
      row := row + 1;
    }
    GridFillsCells(m, count, margin, scale, fg);
  }
  /** The module fills lie on the bitmap and, one per distinct module, do not overlap. */
  lemma ModuleFillsPlaced(m: Matrix, scale: nat, quietZone: nat)
    ensures var cells, margin, size := DarkCells(m), quietZone * scale, CanvasSide(m, scale, quietZone);
      (forall k :: 0 <= k < |cells| ==>
        Inside(margin + cells[k].col * scale, margin + cells[k].row * scale, scale, scale, size, size)) &&
      (forall i, j :: 0 <= i < j < |cells| ==>
        Disjoint(margin + cells[i].col * scale, margin + cells[i].row * scale, scale, scale,
                 margin + cells[j].col * scale, margin + cells[j].row * scale, scale, scale))
  {
    var cells := DarkCells(m);
    DarkCellsExact(m);
    forall k | 0 <= k < |cells|
      ensures Inside(quietZone * scale + cells[k].col * scale, quietZone * scale + cells[k].row * scale, scale, scale,
        CanvasSide(m, scale, quietZone), CanvasSide(m, scale, quietZone))
    {
      assert cells[k] in cells;
      SquareInside(m, cells[k], scale, quietZone);
    }
    forall i, j | 0 <= i < j < |cells|
      ensures Disjoint(quietZone * scale + cells[i].col * scale, quietZone * scale + cells[i].row * scale, scale, scale,
        quietZone * scale + cells[j].col * scale, quietZone * scale + cells[j].row * scale, scale, scale)
    {
      SquaresApart(cells[i], cells[j], scale, quietZone * scale);
    }
  }

  /** The square of a module inside the matrix lies on the canvas. */
  lemma SquareInside(m: Matrix, p: Cell, scale: nat, quietZone: nat)
    requires p.row < m.count && p.col < m.count
    ensures Inside(quietZone * scale + p.col * scale, quietZone * scale + p.row * scale, scale, scale,
      CanvasSide(m, scale, quietZone), CanvasSide(m, scale, quietZone))
  {
    MulStep(p.row, m.count, scale);
    MulStep(p.col, m.count, scale);
  }

  /** The squares of two modules in row-major order do not overlap. */
  lemma SquaresApart(p: Cell, q: Cell, scale: nat, margin: nat)
    requires Before(p, q)
    ensures Disjoint(margin + p.col * scale, margin + p.row * scale, scale, scale,
      margin + q.col * scale, margin + q.row * scale, scale, scale)
  {
    if p.row < q.row {
      MulStep(p.row, q.row, scale);
    } else {
      MulStep(p.col, q.col, scale);
    }
  }


  /**
   * The raster log starts with one background fill covering the whole bitmap
   * and then holds one `scale × scale` foreground fill per dark module, at
   * `(margin + col·scale, margin + row·scale)`, in row-major order; every fill
   * lies on the bitmap, and the module fills do not overlap.
   */
  lemma RasterLayout(m: Matrix, scale: nat, quietZone: nat, fg: string, bg: string)
    ensures var ops, size, cells := RasterOps(m, scale, quietZone, fg, bg), CanvasSide(m, scale, quietZone), DarkCells(m);
      |ops| == 1 + |cells| &&
      ops[0] == FillRect(bg, 0, 0, size, size) &&
      (forall k :: 1 <= k < |ops| ==>
        ops[k] == FillRect(fg, quietZone * scale + cells[k - 1].col * scale, quietZone * scale + cells[k - 1].row * scale, scale, scale)) &&
      (forall k :: 0 <= k < |ops| ==> ops[k].FillRect? && Inside(ops[k].x, ops[k].y, ops[k].w, ops[k].h, size, size)) &&
      (forall i, j :: 1 <= i < j < |ops| ==>
        (ops[i].FillRect? && ops[j].FillRect? &&
         Disjoint(ops[i].x, ops[i].y, ops[i].w, ops[i].h, ops[j].x, ops[j].y, ops[j].w, ops[j].h)))
  {
    ModuleFillsPlaced(m, scale, quietZone);
  }
}
