/** The glyph atlas: a 512 x 512 canvas cut into a 10 x 10 grid of cells,
    glyph `c` of the character set drawn in cell `(c mod 10, c div 10)`, and
    the loop that gives every particle a random glyph by storing the UV origin
    of that glyph's cell. */
module GlyphAtlas {
  import opened Grid
  import opened Random

  /** Side of the square atlas canvas, in pixels. */
  const ATLAS_SIZE: real := 512.0

  /** Columns and rows of the atlas grid. */
  const COLS: nat := 10
  const ROWS: nat := 10

  /** Side of one cell in canvas pixels: `atlasSize / cols`. */
  const CELL: real := ATLAS_SIZE / COLS as real

  /** Side of one cell in UV units: the `cellSize` uniform, `1 / cols`. */
  const CELL_SIZE: real := 1.0 / COLS as real

  /** The character set, in atlas order. */
  const CHARS: string := "ABCDEFGHIJKLMNOPQRSTUVWXYZabcdefghijklmnopqrstuvwxyz0123456789!?&@#"

  /** The 67 glyphs fit the 100 cells of the atlas. */
  lemma CharsetFitsAtlas()
    ensures |CHARS| == 67 && |CHARS| <= COLS * ROWS
  {
  }

  /** The glyph a draw `r` of `Math.random()` selects: `floor(r * |CHARS|)`. */
  function CharIndex(r: real): (c: int)
    ensures 0.0 <= r < 1.0 ==> 0 <= c < |CHARS|
  {
    (r * |CHARS| as real).Floor
  }

  /** The atlas cell of glyph `c`. */
  function GlyphCell(c: nat): (cell: Cell)
    ensures cell.col < COLS && cell.row * COLS + cell.col == c
    ensures c < |CHARS| ==> InGrid(cell, COLS, ROWS)
  {
    DecomposeInGrid(c, COLS, ROWS);
    Decompose(c, COLS)
  }

  /** The UV origin stored for a particle showing glyph `c`:
      `u = col / cols` and `v = 1 - row / rows - 1 / rows`, so `u` counts
      cells from the left edge and `v` counts rows from the bottom edge. */
  function UvOrigin(c: nat): (o: Vec2)
    ensures o.x * COLS as real == GlyphCell(c).col as real
    ensures o.y * ROWS as real == (ROWS as int - 1 - GlyphCell(c).row) as real
  {
    var cell := GlyphCell(c);
    Vec2(cell.col as real / COLS as real,
         1.0 - cell.row as real / ROWS as real - 1.0 / ROWS as real)
  }

  /** The centre at which the atlas loop draws glyph `c`, in canvas pixels:
      the middle of its cell, moved 5 pixels down to correct the baseline. */
  function CellCentre(c: nat): (p: Vec2)
    ensures p.x / ATLAS_SIZE == UvOrigin(c).x + CELL_SIZE / 2.0
    ensures 1.0 - p.y / ATLAS_SIZE == UvOrigin(c).y + CELL_SIZE / 2.0 - 5.0 / ATLAS_SIZE
  {
    var cell := GlyphCell(c);
    Vec2(cell.col as real * CELL + CELL / 2.0, cell.row as real * CELL + CELL / 2.0 + 5.0)
  }

  /** The UV origin of a glyph of the atlas lies in `[0, 1 - cellSize]` on
      both axes; its `v` is the row counted from the bottom,
      `(rows - 1 - row) / rows`. */
  lemma UvOriginBounds(c: nat)
    requires c < COLS * ROWS
    ensures var o := UvOrigin(c);
      0.0 <= o.x <= 1.0 - CELL_SIZE && 0.0 <= o.y <= 1.0 - CELL_SIZE &&
      o.y == (ROWS - 1 - GlyphCell(c).row) as real / ROWS as real
  {
    DecomposeInGrid(c, COLS, ROWS);
  }

  /** Distinct glyphs of the atlas have distinct UV origins, so a particle's
      stored origin determines its glyph. */
  lemma UvOriginInjective(c: nat, d: nat)
    requires UvOrigin(c) == UvOrigin(d)
    ensures c == d
  {
    var cc, cd := GlyphCell(c), GlyphCell(d);
    assert cc.col as real == cd.col as real;
    assert cc.row as real == cd.row as real;
  }

  /** The `fillText` anchor of every glyph of the atlas lies inside the
      canvas. */
  lemma CellCentreInCanvas(c: nat)
    requires c < COLS * ROWS
    ensures var p := CellCentre(c);
      0.0 < p.x < ATLAS_SIZE && 0.0 < p.y < ATLAS_SIZE
  {
    DecomposeInGrid(c, COLS, ROWS);
  }

  /** The anchor point at which glyph `c` is drawn lands inside the UV
      rectangle that a particle showing glyph `c` samples. A canvas point `(x, y)` is read at
      `(x / atlasSize, 1 - y / atlasSize)`: the canvas is uploaded with its
      first pixel row at the top of texture space. So the two loops agree on
      the cell of every glyph's anchor. */
  lemma GlyphDrawnInOwnCell(c: nat)
    requires c < COLS * ROWS
    ensures var o, p := UvOrigin(c), CellCentre(c);
      o.x < p.x / ATLAS_SIZE < o.x + CELL_SIZE &&
      o.y < 1.0 - p.y / ATLAS_SIZE < o.y + CELL_SIZE
  {
    DecomposeInGrid(c, COLS, ROWS);
  }

  /** One `fillText` call on the atlas canvas. */
  datatype DrawCall = FillText(glyph: char, x: real, y: real)

  /** The atlas drawing loop over the character set `chars` (the script
      passes CHARS): one `fillText` per glyph, at its cell centre. */
  method DrawAtlas(chars: string) returns (calls: seq<DrawCall>)
    ensures |calls| == |chars|
    ensures forall i :: 0 <= i < |chars| ==>
              calls[i] == FillText(chars[i], CellCentre(i).x, CellCentre(i).y)
  {
    calls := [];
    var i := 0;
    while i < |chars|
      invariant 0 <= i <= |chars| && |calls| == i
      invariant forall k :: 0 <= k < i ==>
                  calls[k] == FillText(chars[k], CellCentre(k).x, CellCentre(k).y)
    {
      var col := i % COLS;
      var row := i / COLS;
      assert GlyphCell(i) == Cell(col, row);
      calls := calls + [FillText(chars[i], col as real * CELL + CELL / 2.0,
                                 row as real * CELL + CELL / 2.0 + 5.0)];
      i := i + 1;
    }
  }

  /** `t` holds, in stride-2 layout, the UV origin of the glyph that draw
      `draws[i]` selects for particle `i`. */
  ghost predicate IsUvOffsetTable(t: seq<real>, draws: seq<real>)
    requires AllUnit(draws)
  {
    |t| == 2 * |draws| &&
    forall i :: 0 <= i < |draws| ==>
      t[2 * i] == UvOrigin(CharIndex(draws[i])).x &&
      t[2 * i + 1] == UvOrigin(CharIndex(draws[i])).y
  }

  /** Every particle's stored UV pair is the origin of exactly one glyph of
      the character set, and lies in `[0, 1 - cellSize]`. */
  lemma UvOffsetsAreGlyphOrigins(t: seq<real>, draws: seq<real>, i: nat)
    requires AllUnit(draws) && IsUvOffsetTable(t, draws) && i < |draws|
    ensures exists c: nat :: c < |CHARS| && Vec2(t[2 * i], t[2 * i + 1]) == UvOrigin(c)
    ensures forall c: nat, d: nat :: Vec2(t[2 * i], t[2 * i + 1]) == UvOrigin(c) == UvOrigin(d) ==> c == d
    ensures 0.0 <= t[2 * i] <= 1.0 - CELL_SIZE && 0.0 <= t[2 * i + 1] <= 1.0 - CELL_SIZE
  {
    var c: nat := CharIndex(draws[i]);
    UvOriginBounds(c);
    forall c: nat, d: nat | Vec2(t[2 * i], t[2 * i + 1]) == UvOrigin(c) == UvOrigin(d)
      ensures c == d
    {
      UvOriginInjective(c, d);
    }
  }

  /** The glyph-assignment loop: for each particle, one draw picks a glyph and
      the UV origin of its cell goes into a zero-filled
      `Float32Array(PARTICLES * 2)` at `2i` and `2i + 1`. */
  method AssignGlyphs(draws: seq<real>) returns (uvOffsets: array<real>)
    requires AllUnit(draws)
    ensures IsUvOffsetTable(uvOffsets[..], draws)
  {
    uvOffsets := new real[2 * |draws|](_ => 0.0);
    var i := 0;
    while i < |draws|
      invariant 0 <= i <= |draws| && uvOffsets.Length == 2 * |draws|
      invariant forall k :: 0 <= k < i ==>
                  uvOffsets[2 * k] == UvOrigin(CharIndex(draws[k])).x &&
                  uvOffsets[2 * k + 1] == UvOrigin(CharIndex(draws[k])).y
    {
      var charIndex := (draws[i] * |CHARS| as real).Floor;
      var col := charIndex % COLS;
      var row := charIndex / COLS;
      uvOffsets[i * 2 + 0] := col as real / COLS as real;
      uvOffsets[i * 2 + 1] := 1.0 - row as real / ROWS as real - 1.0 / ROWS as real;
      i := i + 1;
    }
  }
}
