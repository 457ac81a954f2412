# Particle-glyph indexing model

This project models the index bookkeeping of the GPU particle field in
`debug_main.js`. That bookkeeping ties each of the `WIDTH * WIDTH` particles
(`WIDTH = 128`) to three things:

- its texel in the position and velocity state textures;
- its reference coordinate, which the vertex shader uses to read that texel;
- a glyph of the 10 x 10 atlas, stored as the UV origin of the glyph's cell.

Modules:

- `Grid` (grid.dfy): the one decomposition `index -> (index mod cols, index div cols)`
  and its inverse. Both the reference table and the atlas use it. It is a
  bijection from `[0, cols*rows)` onto the `cols x rows` grid.
- `Random` (random.dfy): `Math.random()` is an input. Each loop receives the
  values it draws, in order, each in `[0, 1)`.
- `ParticleState` (state.dfy): the seeding loop over the two RGBA state
  textures. Position texel `i` gets three draws mapped to `[-100, 100)` and
  `1`. Velocity texel `i` gets zeros. A ghost write log shows that every slot
  below `4 * PARTICLES` of both textures is written exactly once.
- `References` (references.dfy): the reference table `i -> ((i mod W)/W, (i div W)/W)` with `W = WIDTH = 128`.
  It is a bijection onto the texel grid, its components stay in `[0, 1 - 1/W]`,
  and under nearest filtering the reference of particle `i` selects texel `i`.
- `GlyphAtlas` (atlas.dfy): glyph choice `floor(r * 67)`, cell placement,
  UV origins and the atlas drawing loop. `fillText` is modelled as a list of
  recorded draw calls. The two loops agree on every glyph's cell.
- `Fragment` (fragment.dfy): the atlas coordinate `offset + uv * cellSize` and
  the alpha cut-out at 0.1. The texture fetch is a function parameter.
- `Setup` (setup.dfy): the start-up sequence, and the lemma that closes the
  chain from a particle's reference to its own seeded position.

Divisions are exact `real`s, so the model gives the intended values. Float32
rounding is not modelled. `(i mod 128)/128` happens to be exact in float32,
but `col/10` is not.

Atlas orientation: the canvas is uploaded with its first pixel row at the
top of texture space. So canvas point `(x, y)` is read at
`(x / 512, 1 - y / 512)`. Under that convention, `v = 1 - row/rows - 1/rows`
is the bottom edge of row `row`'s cell, and the `fillText` anchor point of
glyph `c` lies inside the UV rectangle of every particle showing `c`
(`GlyphAtlas.GlyphDrawnInOwnCell`). The extent of the drawn glyph is not
modelled.

## Model

| member | source | states |
|---|---|---|
| Grid.Decompose | debug_main.js:162-163 | the cell of a flat index has `col < cols` and `row * cols + col == index` |
| Grid.QuotientRemainderUnique | debug_main.js:162-163 | any `q`, `r` with `r < n` and `q*n + r == a` are `a div n` and `a mod n` |
| Grid.DecomposeCompose | debug_main.js:162-163 | decomposing the flat index of a cell gives back the same cell |
| Grid.DecomposeInGrid | debug_main.js:151-163 | an index lands in the `cols x rows` grid if and only if it is below `cols * rows` |
| Grid.ComposeInRange | debug_main.js:193-199 | the flat index of a grid cell is below `cols * rows` |
| Grid.DecomposeBijective | debug_main.js:193-199 | over `[0, cols*rows)` the decomposition stays in the grid, never repeats a cell and hits every cell |
| References.Reference | debug_main.js:195-196 | the reference of particle `i`, scaled by the width, is `(i mod W, i div W)` |
| References.ReferenceBounds | debug_main.js:195-196 | every reference component of a particle lies in `[0, 1 - 1/W]` |
| References.UnitFraction | debug_main.js:195-196 | `k/W` lies in `[0, 1 - 1/W]` for `k < W` |
| References.ReferenceInjective | debug_main.js:193-199 | two particles with the same reference are the same particle |
| References.ReferenceSurjective | debug_main.js:193-199 | every texel `(c, r)` is referenced, by particle `r*W + c < W*W` |
| References.Texel | debug_main.js:219 | a coordinate in `[0, 1)` on both axes selects a texel of the texture under nearest row-major sampling |
| References.ReferenceSelectsOwnTexel | debug_main.js:219 | sampling the state texture at particle `i`'s reference selects texel `i` |
| References.ReferenceTableBijective | debug_main.js:193-199 | the stride-2 table is in bounds, has no duplicate pair and no missing grid point |
| References.BuildReferences | debug_main.js:193-199 | the loop fills a `2 * W*W` table with every particle's reference at `2i`, `2i+1` |
| ParticleState.SeedCoord | debug_main.js:119-121 | a draw in `[0, 1)` maps into `[-100, 100)`, and the map is `r*200 - 100` |
| ParticleState.InitialPositionsAt | debug_main.js:118-125 | texel `i` of the seeded positions is `(seed(d[3i]), seed(d[3i+1]), seed(d[3i+2]), 1)` and the texture has 4 floats per particle |
| ParticleState.InitialPositionsBounded | debug_main.js:119-125 | every seeded position component is in `[-100, 100)` and every fourth one is 1 |
| ParticleState.WriteOrderAt | debug_main.js:118-131 | the loop makes `8 * n` writes for `n` particles, the `j`-th going to slot `SlotAt(j)` |
| ParticleState.SlotAtInjective | debug_main.js:122-130 | no two writes of the loop go to the same slot of the same texture |
| ParticleState.WriteOrderExactlyOnce | debug_main.js:118-131 | no slot is written twice, every slot below `4n` of both textures is written, and no other slot |
| ParticleState.SeededTexelsGrow | debug_main.js:122-125 | writing particle `i`'s seeded texel after the first `i` keeps them and extends the seeded prefix by one texel |
| ParticleState.SeededTexelsAreInitialPositions | debug_main.js:118-125 | a texture whose every texel holds its particle's seeded position is the seeded texture |
| ParticleState.WriteOrderNoRepeats | debug_main.js:118-131 | seeding `n` particles writes no slot twice |
| ParticleState.WriteOrderOnlyBelow | debug_main.js:118-131 | seeding `n` particles writes only slots below `4n` |
| ParticleState.WriteOrderCovers | debug_main.js:118-131 | seeding `n` particles writes every slot below `4n` of both textures |
| ParticleState.StoreTexel | debug_main.js:122-130 | the four components land at slots `4i .. 4i+3`, no other slot changes, and the slots recorded as each is assigned are `4i .. 4i+3` of that texture, in order |
| ParticleState.SeedParticle | debug_main.js:119-130 | one pass seeds texel `i` of the positions with `(seed(d[3i]), seed(d[3i+1]), seed(d[3i+2]), 1)` and zeroes velocity texel `i`, keeping the earlier and the later texels of both textures, and its recorded writes are the particle's eight slots in loop order |
| ParticleState.Seed | debug_main.js:118-131 | after the loop the positions are the seeded texture, every velocity is 0, and the writes recorded at the assignments are exactly the write order |
| GlyphAtlas.CharsetFitsAtlas | debug_main.js:151-155 | the 67-character set fits the 10 x 10 grid |
| GlyphAtlas.CharIndex | debug_main.js:161 | a draw in `[0, 1)` selects a glyph index in `[0, 67)` |
| GlyphAtlas.GlyphCell | debug_main.js:162-163 | a glyph's cell has `col < 10`, `row*10 + col == c`, and lies in the grid for every glyph of the set |
| GlyphAtlas.UvOrigin | debug_main.js:166-167 | `u * cols` is the glyph's column and `v * rows` its row counted from the bottom edge |
| GlyphAtlas.UvOriginBounds | debug_main.js:166-167 | a glyph's UV origin lies in `[0, 1 - cellSize]` on both axes, with `v == (rows - 1 - row)/rows` |
| GlyphAtlas.UvOriginInjective | debug_main.js:162-167 | distinct glyphs have distinct UV origins |
| GlyphAtlas.CellCentre | debug_main.js:174 | the `fillText` anchor of glyph `c`, in UV units, is the horizontal centre of `c`'s UV cell and 5 pixels below its vertical centre |
| GlyphAtlas.CellCentreInCanvas | debug_main.js:171-174 | the `fillText` anchor of every glyph lies strictly inside the 512 x 512 canvas |
| GlyphAtlas.GlyphDrawnInOwnCell | debug_main.js:160-174 | the `fillText` anchor of glyph `c` lies strictly inside the UV rectangle a particle showing `c` samples |
| GlyphAtlas.DrawAtlas | debug_main.js:171-175 | one `fillText` per character of the set passed in (start-up passes the 67-character set), in order, each at its glyph's cell centre |
| GlyphAtlas.UvOffsetsAreGlyphOrigins | debug_main.js:160-168 | each particle's stored pair is the UV origin of exactly one glyph of the set and lies in `[0, 1 - cellSize]` |
| GlyphAtlas.AssignGlyphs | debug_main.js:160-168 | the loop fills a `2n` table with the UV origin of the glyph each particle's draw selects |
| Fragment.AtlasUVInOwnCell | debug_main.js:244 | a quad coordinate in the unit square samples inside the particle's own cell, and so inside the atlas |
| Fragment.Shade | debug_main.js:247-256 | the fragment is discarded exactly when the alpha is below 0.1; otherwise it is black with the alpha unchanged |
| Fragment.AtlasUV | debug_main.js:244 | a quad coordinate in the unit square samples inside the cell that starts at the particle's offset |
| Fragment.ShadeFragment | debug_main.js:244-256 | a fragment is kept exactly when the alpha sampled at its atlas coordinate reaches 0.1, and a kept fragment is black with alpha at least 0.1 |
| Fragment.ShadeFragmentReadsOwnCell | debug_main.js:244-256 | a fragment of a particle showing glyph `c` is kept exactly when the alpha at its sample point reaches 0.1, and that sample point lies in `c`'s cell |
| Setup.Initialise | debug_main.js:115-199 | start-up yields 4 floats per particle in both state textures, 2 per particle in the glyph and reference tables, each as the loops specify |
| Setup.ParticleReadsOwnSeed | debug_main.js:193-199 | particle `i`'s reference selects texel `i`, which holds the position seeded from draws `3i .. 3i+2`, inside the cube, with `w = 1` |

## Left out

- The velocity and position compute shaders (debug_main.js:30-109). They are float numerics with square roots and simplex noise, run as a data-parallel GPU pass.
- Ping-pong buffering, `gpuCompute.init()` and its error report, `compute()` and `getCurrentRenderTarget`. The buffer swap lives in GPUComputationRenderer, which is not part of this model.
- The billboard vertex shader (debug_main.js:211-234), apart from the texel its reference selects (`References.ReferenceSelectsOwnTexel`). Camera matrices are float transforms.
- Canvas, font, texture and material creation. `fillText` is recorded as a draw call, not rasterised. The texture fetch is a function parameter of `Fragment.ShadeFragment`.
- Mouse and resize listeners and the animation loop: browser I/O.
- main.js, _legacy_v8/main.js, _legacy_v2/main.js and verification/verify_3d.py are not part of this model. They hold scene setup, rigid-body physics, GPU lighting and browser automation.
- `Math.random()`: modelled as the sequence of values drawn, each in `[0, 1)`.
- Float32 and half-float storage: all values are exact reals.
- `GlyphAtlas.GlyphDrawnInOwnCell` assumes the canvas is uploaded with its first pixel row at the top of texture space. That is the texture library's default, not something this code sets.
- `GlyphAtlas.GlyphDrawnInOwnCell` and `GlyphAtlas.CellCentreInCanvas` are about the `fillText` anchor point only. The extent of a glyph in the 48-pixel bold font (debug_main.js:146) is font rasterisation, so the model does not show that a whole glyph stays inside its cell.
- `Fragment.ShadeFragmentReadsOwnCell` is about the sample point only. The atlas uses linear filtering (debug_main.js:178-179), and cell edges at multiples of 51.2 pixels do not fall on texel boundaries, so a sample at a cell edge can blend pixels of the neighbouring cell. The texture fetch is an unconstrained parameter.
- `References.Texel` and `References.ReferenceSelectsOwnTexel` assume the state texture is sampled nearest-neighbour and row-major. That is the GPU computation helper's default, not something this code sets.
- Errors for an invalid grid side or atlas size, or for use before start-up: the code makes no such checks, since the grid side and the atlas size are constants.
