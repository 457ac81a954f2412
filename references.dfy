/** The instance reference table: particle `i` finds its simulation state at
    the normalised texture coordinate of texel `(i mod WIDTH, i div WIDTH)`
    of the WIDTH x WIDTH state textures. */
module References {
  import opened Grid

  /** Side of the square state textures. */
  const WIDTH: nat := 128

  /** Number of particles: one per texel. */
  const PARTICLES: nat := WIDTH * WIDTH

  /** The texture side as a real, the divisor of the reference loop. */
  const SIDE: real := WIDTH as real

  /** The reference coordinate of particle `i`. */
  function Reference(i: nat): (p: Vec2)
    ensures p.x * SIDE == (i % WIDTH) as real
    ensures p.y * SIDE == (i / WIDTH) as real
  {
    var c := Decompose(i, WIDTH);
    Vec2(c.col as real / SIDE, c.row as real / SIDE)
  }

  /** The texel a coordinate selects under nearest filtering, as a flat
      row-major texel index. A coordinate in `[0, 1)` on both axes selects a
      texel of the texture. */
  function Texel(p: Vec2): (t: int)
    ensures 0.0 <= p.x < 1.0 && 0.0 <= p.y < 1.0 ==> 0 <= t < PARTICLES
  {
    (p.y * SIDE).Floor * WIDTH + (p.x * SIDE).Floor
  }

  /** Every reference component of a particle lies in `[0, 1 - 1/WIDTH]`. */
  lemma ReferenceBounds(i: nat)
    ensures 0.0 <= Reference(i).x <= 1.0 - 1.0 / SIDE
    ensures i < PARTICLES ==> 0.0 <= Reference(i).y <= 1.0 - 1.0 / SIDE
  {
    var c := Decompose(i, WIDTH);
    DecomposeInGrid(i, WIDTH, WIDTH);
    UnitFraction(c.col);
    if i < PARTICLES {
      UnitFraction(c.row);
    }
  }

  /** `k / WIDTH` lies in `[0, 1 - 1/WIDTH]` for `k < WIDTH`. */
  lemma UnitFraction(k: nat)
    requires k < WIDTH
    ensures 0.0 <= k as real / SIDE <= 1.0 - 1.0 / SIDE
  {
    assert k as real <= SIDE - 1.0;
  }

  /** No two particles share a reference. */
  lemma ReferenceInjective(i: nat, j: nat)
    requires Reference(i) == Reference(j)
    ensures i == j
  {
    var ci, cj := Decompose(i, WIDTH), Decompose(j, WIDTH);
    assert ci.col as real == cj.col as real && ci.row as real == cj.row as real;
  }

  /** Every texel of the grid is referenced by the particle whose index is its
      row-major position. */
  lemma ReferenceSurjective(c: Cell)
    requires InGrid(c, WIDTH, WIDTH)
    ensures Compose(c, WIDTH) < PARTICLES
    ensures Reference(Compose(c, WIDTH)) == Vec2(c.col as real / SIDE, c.row as real / SIDE)
  {
    ComposeInRange(c, WIDTH, WIDTH);
    DecomposeCompose(c, WIDTH);
  }

  /** Sampling particle `i`'s reference selects texel `i`, whose state the
      initialisation loop wrote at slots `4i .. 4i+3`. */
  lemma ReferenceSelectsOwnTexel(i: nat)
    ensures Texel(Reference(i)) == i
  {
    var p := Reference(i);
    assert (p.x * SIDE).Floor == i % WIDTH;
    assert (p.y * SIDE).Floor == i / WIDTH;
  }

  /** `t` holds the reference of every particle in stride-2 layout. */
  ghost predicate IsReferenceTable(t: seq<real>)
  {
    |t| == 2 * PARTICLES &&
    forall i: nat :: i < PARTICLES ==>
      t[2 * i] == Reference(i).x && t[2 * i + 1] == Reference(i).y
  }

  /** The reference table is a bijection from particles onto the grid points
      `{(c/WIDTH, r/WIDTH) : c, r < WIDTH}`: in bounds, no duplicates, no gaps. */
  lemma ReferenceTableBijective(t: seq<real>)
    requires IsReferenceTable(t)
    ensures forall i: nat :: i < PARTICLES ==>
              0.0 <= t[2 * i] <= 1.0 - 1.0 / SIDE && 0.0 <= t[2 * i + 1] <= 1.0 - 1.0 / SIDE
    ensures forall i: nat, j: nat :: i < j < PARTICLES ==>
              t[2 * i] != t[2 * j] || t[2 * i + 1] != t[2 * j + 1]
    ensures forall c: Cell :: InGrid(c, WIDTH, WIDTH) ==>
              exists i: nat :: i < PARTICLES &&
                t[2 * i] == c.col as real / SIDE && t[2 * i + 1] == c.row as real / SIDE
  {
    forall i: nat | i < PARTICLES
      ensures 0.0 <= t[2 * i] <= 1.0 - 1.0 / SIDE && 0.0 <= t[2 * i + 1] <= 1.0 - 1.0 / SIDE
    {
      ReferenceBounds(i);
    }
    forall i: nat, j: nat | i < j < PARTICLES
      ensures t[2 * i] != t[2 * j] || t[2 * i + 1] != t[2 * j + 1]
    {
      if Reference(i) == Reference(j) {
        ReferenceInjective(i, j);
      }
    }
    forall c: Cell | InGrid(c, WIDTH, WIDTH)
      ensures exists i: nat :: i < PARTICLES &&
                t[2 * i] == c.col as real / SIDE && t[2 * i + 1] == c.row as real / SIDE
    {
      ReferenceSurjective(c);
      var i := Compose(c, WIDTH);
      assert t[2 * i] == Reference(i).x;
    }
  }

  /** The reference-table loop: a zero-filled `Float32Array(PARTICLES * 2)`
      receives each particle's reference at `2i` and `2i + 1`. */
  method BuildReferences() returns (refs: array<real>)
    ensures IsReferenceTable(refs[..])
  {
    refs := new real[2 * PARTICLES](_ => 0.0);
    var i := 0;
    while i < PARTICLES
      invariant 0 <= i <= PARTICLES && refs.Length == 2 * PARTICLES
      invariant forall k: nat :: k < i ==>
                  refs[2 * k] == Reference(k).x && refs[2 * k + 1] == Reference(k).y
    {
      var x := (i % WIDTH) as real / SIDE;
      var y := (i / WIDTH) as real / SIDE;
      refs[i * 2] := x;
      refs[i * 2 + 1] := y;
      i := i + 1;
    }
  }
}
