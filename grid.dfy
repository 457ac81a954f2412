/** The one index decomposition the particle system uses twice: a flat index
    into a row-major grid with `cols` columns splits into (index mod cols,
    index div cols). The reference table applies it with `cols` = the texture
    width, the glyph atlas with `cols` = the atlas column count. */
module Grid {

  /** A two-component vector: a texture coordinate or a canvas point. */
  datatype Vec2 = Vec2(x: real, y: real)

  /** A cell of a row-major grid. */
  datatype Cell = Cell(col: nat, row: nat)

  /** The cell holding flat index `index`: `(index % cols, floor(index / cols))`.
      For a non-negative index JavaScript's `%` and `Math.floor(/)` agree with
      Dafny's Euclidean `%` and `/`. */
  function Decompose(index: nat, cols: nat): (c: Cell)
    requires cols > 0
    ensures c.col < cols
    ensures c.row * cols + c.col == index
  {
    Cell(index % cols, index / cols)
  }

  /** The flat index of a cell, the inverse of Decompose. */
  function Compose(c: Cell, cols: nat): (index: nat)
    requires c.col < cols
    ensures index % cols == c.col && index / cols == c.row
  {
    QuotientRemainderUnique(c.row * cols + c.col, cols, c.row, c.col);
    c.row * cols + c.col
  }

  /** A cell lies in a `cols` x `rows` grid. */
  predicate InGrid(c: Cell, cols: nat, rows: nat)
  {
    c.col < cols && c.row < rows
  }

  /** Quotient and remainder are unique: any `q`, `r` with `0 <= r < n` and
      `q * n + r == a` are `a / n` and `a % n`. */
  lemma QuotientRemainderUnique(a: nat, n: nat, q: nat, r: nat)
    requires n > 0 && r < n && q * n + r == a
    ensures a / n == q && a % n == r
  {
    var q', r' := a / n, a % n;
    assert q' * n + r' == a;
    if q' > q {
      ShiftedProduct(q, q' - q, n);
    } else if q' < q {
      ShiftedProduct(q', q - q', n);
    }
  }

  /** `(q + d) * n` exceeds `q * n` by at least `n` when `d >= 1`. */
  lemma ShiftedProduct(q: nat, d: nat, n: nat)
    requires d >= 1
    ensures (q + d) * n >= q * n + n
  {
    assert (q + d) * n == q * n + d * n;
    assert d * n == n + (d - 1) * n;
  }

  /** Decompose undoes Compose on every cell of the grid. */
  lemma DecomposeCompose(c: Cell, cols: nat)
    requires c.col < cols
    ensures Decompose(Compose(c, cols), cols) == c
  {
  }

  /** An index below `cols * rows` lands in the `cols` x `rows` grid, and only
      such an index does. */
  lemma {:induction false} DecomposeInGrid(index: nat, cols: nat, rows: nat)
    requires cols > 0
    ensures InGrid(Decompose(index, cols), cols, rows) <==> index < cols * rows
  {
    var c := Decompose(index, cols);
    if c.row < rows {
      MulMonotone(c.row, rows - 1, cols);
      assert (rows - 1) * cols + cols == rows * cols;
    } else {
      MulMonotone(rows, c.row, cols);
    }
  }

  /** Multiplying by a natural number keeps `<=`. */
  lemma MulMonotone(a: nat, b: nat, n: nat)
    requires a <= b
    ensures a * n <= b * n
  {
    assert b * n == a * n + (b - a) * n;
  }

  /** A cell of the grid has its flat index below `cols * rows`. */
  lemma ComposeInRange(c: Cell, cols: nat, rows: nat)
    requires InGrid(c, cols, rows)
    ensures Compose(c, cols) < cols * rows
  {
    DecomposeCompose(c, cols);
    DecomposeInGrid(Compose(c, cols), cols, rows);
  }

  /** Over `[0, cols * rows)` Decompose is a bijection onto the `cols` x `rows`
      grid: it stays in the grid, no two indices share a cell, and every cell
      is hit. */
  lemma DecomposeBijective(cols: nat, rows: nat)
    requires cols > 0
    ensures forall i: nat :: i < cols * rows ==> InGrid(Decompose(i, cols), cols, rows)
    ensures forall i: nat, j: nat :: Decompose(i, cols) == Decompose(j, cols) ==> i == j
    ensures forall c :: InGrid(c, cols, rows) ==>
              exists i: nat :: i < cols * rows && Decompose(i, cols) == c
  {
    forall i: nat | i < cols * rows
      ensures InGrid(Decompose(i, cols), cols, rows)
    {
      DecomposeInGrid(i, cols, rows);
    }
    forall c | InGrid(c, cols, rows)
      ensures exists i: nat :: i < cols * rows && Decompose(i, cols) == c
    {
      ComposeInRange(c, cols, rows);
      DecomposeCompose(c, cols);
    }
  }
}
