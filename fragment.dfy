/** The integer-free part of the particle fragment shader: where in the atlas
    a point of a particle's quad samples, and the alpha cut-out applied to
    the sample. The texture fetch itself is a parameter. */
module Fragment {
  import opened Grid
  import opened GlyphAtlas

  /** The atlas coordinate sampled for quad coordinate `uv` of a particle
      whose glyph cell starts at `offset`: `offset + uv * cellSize`. */
  function AtlasUV(offset: Vec2, uv: Vec2): (p: Vec2)
    ensures InUnitSquare(uv) ==>
      offset.x <= p.x <= offset.x + CELL_SIZE && offset.y <= p.y <= offset.y + CELL_SIZE
  {
    Vec2(offset.x + uv.x * CELL_SIZE, offset.y + uv.y * CELL_SIZE)
  }

  /** A point of the unit square. */
  predicate InUnitSquare(p: Vec2)
  {
    0.0 <= p.x <= 1.0 && 0.0 <= p.y <= 1.0
  }

  /** A quad coordinate in the unit square samples inside the particle's own
      cell `[offset, offset + cellSize]`; for the origin of a glyph of the
      atlas that cell, and so the sample, lies inside the atlas. */
  lemma AtlasUVInOwnCell(c: nat, uv: Vec2)
    requires c < COLS * ROWS && InUnitSquare(uv)
    ensures var o, p := UvOrigin(c), AtlasUV(UvOrigin(c), uv);
      o.x <= p.x <= o.x + CELL_SIZE && o.y <= p.y <= o.y + CELL_SIZE
    ensures InUnitSquare(AtlasUV(UvOrigin(c), uv))
  {
    UvOriginBounds(c);
    assert CELL_SIZE == 0.1;
    assert 0.0 <= uv.x * CELL_SIZE <= CELL_SIZE && 0.0 <= uv.y * CELL_SIZE <= CELL_SIZE;
  }

  /** The output of the fragment stage. */
  datatype Output = Discard | Colour(r: real, g: real, b: real, a: real)

  /** The alpha test and output colour: a sample whose alpha is below 0.1 is
      discarded, any other is drawn black with the sample's alpha. */
  function Shade(alpha: real): (out: Output)
    ensures out == Discard <==> alpha < 0.1
    ensures out != Discard ==> out == Colour(0.0, 0.0, 0.0, alpha)
  {
    if alpha < 0.1 then Discard else Colour(0.0, 0.0, 0.0, alpha)
  }

  /** The whole fragment stage for one quad point: sample the atlas alpha at
      the particle's atlas coordinate, then apply the cut-out. */
  function ShadeFragment(offset: Vec2, uv: Vec2, atlasAlpha: Vec2 -> real): (out: Output)
    ensures out == Discard <==> atlasAlpha(AtlasUV(offset, uv)) < 0.1
    ensures out != Discard ==> out.r == out.g == out.b == 0.0 && out.a >= 0.1
  {
    Shade(atlasAlpha(AtlasUV(offset, uv)))
  }

  /** A fragment of a particle showing glyph `c` is kept exactly when the atlas
      alpha at its sample point reaches 0.1, and then it is black with that
      alpha; the sample point lies in `c`'s own cell. */
  lemma ShadeFragmentReadsOwnCell(c: nat, uv: Vec2, atlasAlpha: Vec2 -> real)
    requires c < COLS * ROWS && InUnitSquare(uv)
    ensures var o, p := UvOrigin(c), AtlasUV(UvOrigin(c), uv);
      o.x <= p.x <= o.x + CELL_SIZE && o.y <= p.y <= o.y + CELL_SIZE &&
      (ShadeFragment(o, uv, atlasAlpha) != Discard <==> atlasAlpha(p) >= 0.1) &&
      (ShadeFragment(o, uv, atlasAlpha) != Discard ==>
         ShadeFragment(o, uv, atlasAlpha) == Colour(0.0, 0.0, 0.0, atlasAlpha(p)))
  {
    AtlasUVInOwnCell(c, uv);
  }
}
