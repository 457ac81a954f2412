/** Start-up of the particle system, in the order the script runs it: seed
    the two state textures, assign every particle a glyph, draw the atlas,
    build the reference table. `draws` is the whole stream of
    `Math.random()` values the start-up consumes: three per particle for the
    positions, then one per particle for the glyphs. */
module Setup {
  import opened Grid
  import opened Random
  import opened ParticleState
  import opened References
  import opened GlyphAtlas

  /** Runs the four start-up loops. Every table has one entry per particle:
      four floats per texel for the state, two per particle for the glyph
      origins and the references. */
  method Initialise(draws: seq<real>)
      returns (position: array<real>, velocity: array<real>, uvOffsets: array<real>,
               atlas: seq<DrawCall>, references: array<real>)
    requires |draws| == 4 * PARTICLES && AllUnit(draws)
    ensures position.Length == velocity.Length == 4 * PARTICLES
    ensures uvOffsets.Length == references.Length == 2 * PARTICLES
    ensures position[..] == InitialPositions(draws[..3 * PARTICLES])
    ensures forall j :: 0 <= j < velocity.Length ==> velocity[j] == 0.0
    ensures IsUvOffsetTable(uvOffsets[..], draws[3 * PARTICLES..])
    ensures |atlas| == |CHARS|
    ensures forall i :: 0 <= i < |CHARS| ==>
              atlas[i] == FillText(CHARS[i], CellCentre(i).x, CellCentre(i).y)
    ensures IsReferenceTable(references[..])
  {
    position := new real[4 * PARTICLES](_ => 0.0);
    velocity := new real[4 * PARTICLES](_ => 0.0);
    var seeded := Seed(position, velocity, draws[..3 * PARTICLES]);

    uvOffsets := AssignGlyphs(draws[3 * PARTICLES..]);
    atlas := DrawAtlas(CHARS);
    references := BuildReferences();
  }

  /** The two-level indirection closes: particle `i` samples the state
      texture at its reference, lands on texel `i`, and finds there the
      position seeded from its own three draws, inside the seeding cube. */
  lemma ParticleReadsOwnSeed(references: seq<real>, position: seq<real>, draws: seq<real>, i: nat)
    requires IsReferenceTable(references)
    requires |draws| == 3 * PARTICLES && AllUnit(draws) && position == InitialPositions(draws)
    requires i < PARTICLES
    ensures Texel(Vec2(references[2 * i], references[2 * i + 1])) == i
    ensures |position| == 4 * PARTICLES
    ensures position[4 * i .. 4 * i + 4]
              == [SeedCoord(draws[3 * i]), SeedCoord(draws[3 * i + 1]), SeedCoord(draws[3 * i + 2]), 1.0]
    ensures -100.0 <= position[4 * i] < 100.0 && -100.0 <= position[4 * i + 1] < 100.0
    ensures -100.0 <= position[4 * i + 2] < 100.0
  {
    ReferenceSelectsOwnTexel(i);
    InitialPositionsAt(draws, i);
    assert 0.0 <= draws[3 * i] < 1.0 && 0.0 <= draws[3 * i + 1] < 1.0 && 0.0 <= draws[3 * i + 2] < 1.0;
  }
}
