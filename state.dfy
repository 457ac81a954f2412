/** The particle-state textures and the loop that seeds them. Each particle
    owns one RGBA texel, so its position and its velocity each take four
    consecutive floats: slot `4i + k` holds component `k` of particle `i`. */
module ParticleState {
  import opened Grid
  import opened Random

  /** Maps a draw `r` of `Math.random()` to a coordinate of the seeding cube:
      `r * 200 - 100`. */
  function SeedCoord(r: real): (x: real)
    ensures 0.0 <= r < 1.0 ==> -100.0 <= x < 100.0
    ensures x + 100.0 == r * 200.0
  {
    r * 200.0 - 100.0
  }

  /** Slot `j` of the seeded position texture: component `j mod 4` of
      particle `j div 4`, which is `1` for the fourth component and the
      particle's matching draw mapped to the cube otherwise. */
  function SeededSlot(draws: seq<real>, j: nat): real
    requires j / 4 < |draws| / 3
  {
    var t, k := j / 4, j % 4;
    if k == 3 then 1.0 else SeedCoord(draws[3 * t + k])
  }

  /** The position texture after seeding, given the random draws in the order
      the loop makes them (x, y, z for particle 0, then for particle 1, ...):
      one texel `(x, y, z, 1)` per three draws. */
  function InitialPositions(draws: seq<real>): seq<real>
    requires |draws| % 3 == 0
  {
    seq(4 * (|draws| / 3), j requires 0 <= j < 4 * (|draws| / 3) => SeededSlot(draws, j))
  }

  /** Texel `i` of the seeded texture holds the three draws `3i .. 3i+2`,
      mapped to the cube, and `1` in its fourth component. */
  lemma InitialPositionsAt(draws: seq<real>, i: nat)
    requires |draws| % 3 == 0
    ensures |InitialPositions(draws)| == 4 * (|draws| / 3)
    ensures i < |draws| / 3 ==>
              InitialPositions(draws)[4 * i] == SeedCoord(draws[3 * i]) &&
              InitialPositions(draws)[4 * i + 1] == SeedCoord(draws[3 * i + 1]) &&
              InitialPositions(draws)[4 * i + 2] == SeedCoord(draws[3 * i + 2]) &&
              InitialPositions(draws)[4 * i + 3] == 1.0
  {
    if i < |draws| / 3 {
      QuotientRemainderUnique(4 * i, 4, i, 0);
      QuotientRemainderUnique(4 * i + 1, 4, i, 1);
      QuotientRemainderUnique(4 * i + 2, 4, i, 2);
      QuotientRemainderUnique(4 * i + 3, 4, i, 3);
    }
  }

  /** After seeding, every position component lies in `[-100, 100)` and every
      fourth component is `1`. */
  lemma InitialPositionsBounded(draws: seq<real>)
    requires |draws| % 3 == 0 && AllUnit(draws)
    ensures forall j :: 0 <= j < |InitialPositions(draws)| ==>
              if j % 4 == 3 then InitialPositions(draws)[j] == 1.0
              else -100.0 <= InitialPositions(draws)[j] < 100.0
  {
    var s := InitialPositions(draws);
    forall j | 0 <= j < |s|
      ensures if j % 4 == 3 then s[j] == 1.0 else -100.0 <= s[j] < 100.0
    {
      InitialPositionsAt(draws, j / 4);
      assert j == 4 * (j / 4) + j % 4;
    }
  }

  /** The first `n` texels of `s` hold the seeded positions of the first `n`
      particles. */
  ghost predicate SeededTexels(s: seq<real>, draws: seq<real>, n: nat)
    requires 4 * n <= |s| && 3 * n <= |draws|
  {
    forall t :: 0 <= t < n ==>
      s[4 * t] == SeedCoord(draws[3 * t]) && s[4 * t + 1] == SeedCoord(draws[3 * t + 1]) &&
      s[4 * t + 2] == SeedCoord(draws[3 * t + 2]) && s[4 * t + 3] == 1.0
  }

  /** Writing particle `i`'s seeded texel after the first `i` keeps them
      and extends the seeded prefix by one texel. */
  lemma SeededTexelsGrow(s: seq<real>, s': seq<real>, draws: seq<real>, i: nat)
    requires 4 * i + 4 <= |s| == |s'| && 3 * i + 3 <= |draws|
    requires SeededTexels(s, draws, i)
    requires forall j :: 0 <= j < 4 * i ==> s'[j] == s[j]
    requires s'[4 * i] == SeedCoord(draws[3 * i]) && s'[4 * i + 1] == SeedCoord(draws[3 * i + 1])
    requires s'[4 * i + 2] == SeedCoord(draws[3 * i + 2]) && s'[4 * i + 3] == 1.0
    ensures SeededTexels(s', draws, i + 1)
  {
    forall t | 0 <= t < i
      ensures s'[4 * t] == SeedCoord(draws[3 * t]) && s'[4 * t + 1] == SeedCoord(draws[3 * t + 1])
      ensures s'[4 * t + 2] == SeedCoord(draws[3 * t + 2]) && s'[4 * t + 3] == 1.0
    {
      assert s'[4 * t] == s[4 * t] && s'[4 * t + 1] == s[4 * t + 1];
      assert s'[4 * t + 2] == s[4 * t + 2] && s'[4 * t + 3] == s[4 * t + 3];
    }
  }

  /** A texture whose every texel holds its particle's seeded position is the
      seeded texture. */
  lemma SeededTexelsAreInitialPositions(s: seq<real>, draws: seq<real>)
    requires |draws| % 3 == 0 && |s| == 4 * (|draws| / 3)
    requires SeededTexels(s, draws, |draws| / 3)
    ensures s == InitialPositions(draws)
  {
    var p := InitialPositions(draws);
    forall j | 0 <= j < |s|
      ensures s[j] == p[j]
    {
      var t, k := j / 4, j % 4;
      assert j == 4 * t + k;
    }
  }

  /** A slot of one of the two state textures. */
  datatype Slot = Position(index: nat) | Velocity(index: nat)

  /** The writes the loop makes for particle `i`, in order. */
  function TexelWrites(i: nat): seq<Slot>
  {
    [Position(4 * i), Position(4 * i + 1), Position(4 * i + 2), Position(4 * i + 3),
     Velocity(4 * i), Velocity(4 * i + 1), Velocity(4 * i + 2), Velocity(4 * i + 3)]
  }

  /** The writes the loop makes for the first `n` particles, in order. */
  function WriteOrder(n: nat): seq<Slot>
  {
    if n == 0 then [] else WriteOrder(n - 1) + TexelWrites(n - 1)
  }

  /** The `j`-th write of the loop: particle `j / 8`, position texel first,
      then velocity texel, components in order. */
  function SlotAt(j: nat): Slot
  {
    var t, r := j / 8, j % 8;
    if r < 4 then Position(4 * t + r) else Velocity(4 * t + r - 4)
  }

  /** The loop's writes in order are `SlotAt(0), SlotAt(1), ...`. */
  lemma {:induction false} WriteOrderAt(n: nat, j: nat)
    ensures |WriteOrder(n)| == 8 * n
    ensures j < 8 * n ==> WriteOrder(n)[j] == SlotAt(j)
  {
    if n > 0 {
      WriteOrderAt(n - 1, j);
      if 8 * (n - 1) <= j < 8 * n {
        var r := j - 8 * (n - 1);
        QuotientRemainderUnique(j, 8, n - 1, r);
        assert WriteOrder(n)[j] == TexelWrites(n - 1)[r];
      }
    }
  }

  /** No two writes of the loop hit the same slot. */
  lemma SlotAtInjective(a: nat, b: nat)
    ensures SlotAt(a) == SlotAt(b) ==> a == b
  {
    if SlotAt(a) == SlotAt(b) {
      var ra, rb := a % 8, b % 8;
      var ka := if ra < 4 then ra else ra - 4;
      var kb := if rb < 4 then rb else rb - 4;
      QuotientRemainderUnique(SlotAt(a).index, 4, a / 8, ka);
      QuotientRemainderUnique(SlotAt(b).index, 4, b / 8, kb);
      assert a / 8 == b / 8 && ra == rb;
    }
  }

  /** Seeding `n` particles writes no slot twice. */
  lemma WriteOrderNoRepeats(n: nat)
    ensures forall a, b :: 0 <= a < b < |WriteOrder(n)| ==> WriteOrder(n)[a] != WriteOrder(n)[b]
  {
    WriteOrderAt(n, 0);
    forall a, b | 0 <= a < b < 8 * n
      ensures WriteOrder(n)[a] != WriteOrder(n)[b]
    {
      WriteOrderAt(n, a);
      WriteOrderAt(n, b);
      SlotAtInjective(a, b);
    }
  }

  /** Seeding `n` particles writes only slots below `4n`. */
  lemma WriteOrderOnlyBelow(n: nat, j: nat)
    requires j < |WriteOrder(n)|
    ensures WriteOrder(n)[j].index < 4 * n
  {
    WriteOrderAt(n, j);
    var t, r := j / 8, j % 8;
    assert t < n;
  }

  /** Seeding `n` particles writes every slot below `4n` of both textures. */
  lemma WriteOrderCovers(n: nat, s: Slot)
    requires s.index < 4 * n
    ensures s in WriteOrder(n)
  {
    var k := s.index;
    var t, c := k / 4, k % 4;
    assert k == 4 * t + c && t < n;
    var r := if s.Position? then c else c + 4;
    var j := 8 * t + r;
    QuotientRemainderUnique(j, 8, t, r);
    assert SlotAt(j) == s;
    WriteOrderAt(n, j);
  }

  /** Seeding `n` particles writes no slot twice, writes every slot below `4n`
      of both textures, and writes no other slot. */
  lemma WriteOrderExactlyOnce(n: nat)
    ensures forall a, b :: 0 <= a < b < |WriteOrder(n)| ==> WriteOrder(n)[a] != WriteOrder(n)[b]
    ensures forall s: Slot :: s in WriteOrder(n) <==> s.index < 4 * n
  {
    WriteOrderNoRepeats(n);
    var w := WriteOrder(n);
    forall s: Slot
      ensures s in w <==> s.index < 4 * n
    {
      if s in w {
        var j :| 0 <= j < |w| && w[j] == s;
        WriteOrderOnlyBelow(n, j);
      }
      if s.index < 4 * n {
        WriteOrderCovers(n, s);
      }
    }
  }

  /** The first `n` texels of the array `a` hold the seeded positions of the
      first `n` particles. */
  ghost predicate SeededPrefix(a: array<real>, draws: seq<real>, n: nat)
    requires 4 * n <= a.Length && 3 * n <= |draws|
    reads a
  {
    SeededTexels(a[..], draws, n)
  }

  /** The two state textures. */
  datatype Texture = PositionTexture | VelocityTexture

  /** Slot `k` of texture `tex`. */
  function SlotIn(tex: Texture, k: nat): (s: Slot)
    ensures s.index == k && (s.Position? <==> tex == PositionTexture)
  {
    if tex == PositionTexture then Position(k) else Velocity(k)
  }

  /** Writes the four components of texel `i` of the state texture `tex`, at
      slots `4i .. 4i+3`, in order; `written` records each slot as it is
      assigned. */
  method StoreTexel(a: array<real>, ghost tex: Texture, i: nat, x: real, y: real, z: real, w: real)
      returns (ghost written: seq<Slot>)
    requires 4 * i + 4 <= a.Length
    modifies a
    ensures a[4 * i] == x && a[4 * i + 1] == y && a[4 * i + 2] == z && a[4 * i + 3] == w
    ensures forall j :: 0 <= j < a.Length && (j < 4 * i || 4 * i + 4 <= j) ==> a[j] == old(a[j])
    ensures written == [SlotIn(tex, 4 * i), SlotIn(tex, 4 * i + 1), SlotIn(tex, 4 * i + 2), SlotIn(tex, 4 * i + 3)]
  {
    a[i * 4 + 0] := x;
    written := [SlotIn(tex, i * 4 + 0)];
    a[i * 4 + 1] := y;
    written := written + [SlotIn(tex, i * 4 + 1)];
    a[i * 4 + 2] := z;
    written := written + [SlotIn(tex, i * 4 + 2)];
    a[i * 4 + 3] := w;
    written := written + [SlotIn(tex, i * 4 + 3)];
  }

  /** One pass of the initialisation loop: particle `i` gets three draws
      mapped to the cube and `1` in its position texel and zeros in its
      velocity texel. `writes` records the slots written, in order, as
      the two texel stores report them. */
  method SeedParticle(position: array<real>, velocity: array<real>, draws: seq<real>, i: nat)
      returns (ghost writes: seq<Slot>)
    requires position != velocity
    requires position.Length == velocity.Length == 4 * (|draws| / 3) && |draws| % 3 == 0
    requires i < |draws| / 3
    requires SeededPrefix(position, draws, i)
    requires forall j :: 0 <= j < 4 * i ==> velocity[j] == 0.0
    modifies position, velocity
    ensures SeededPrefix(position, draws, i + 1)
    ensures forall j :: 0 <= j < 4 * (i + 1) ==> velocity[j] == 0.0
    ensures forall j :: 4 * (i + 1) <= j < position.Length ==>
              position[j] == old(position[j]) && velocity[j] == old(velocity[j])
    ensures writes == TexelWrites(i)
  {
    var x := draws[3 * i] * 200.0 - 100.0;
    var y := draws[3 * i + 1] * 200.0 - 100.0;
    var z := draws[3 * i + 2] * 200.0 - 100.0;
    ghost var before := position[..];
    ghost var positionWrites := StoreTexel(position, PositionTexture, i, x, y, z, 1.0);
    SeededTexelsGrow(before, position[..], draws, i);
    ghost var velocityWrites := StoreTexel(velocity, VelocityTexture, i, 0.0, 0.0, 0.0, 0.0);
    writes := positionWrites + velocityWrites;
  }

  /** The initialisation loop over the two state textures, created zero-filled:
      it seeds every particle in index order. `log` records the slots
      written, in order. */
  method Seed(position: array<real>, velocity: array<real>, draws: seq<real>)
      returns (ghost log: seq<Slot>)
    requires position != velocity
    requires position.Length == velocity.Length == 4 * (|draws| / 3) && |draws| % 3 == 0
    modifies position, velocity
    ensures position[..] == InitialPositions(draws)
    ensures forall j :: 0 <= j < velocity.Length ==> velocity[j] == 0.0
    ensures log == WriteOrder(|draws| / 3)
  {
    var particles := |draws| / 3;
    log := [];
    var i := 0;
    while i < particles
      invariant 0 <= i <= particles
      invariant SeededPrefix(position, draws, i)
      invariant forall j :: 0 <= j < 4 * i ==> velocity[j] == 0.0
      invariant log == WriteOrder(i)
    {
      ghost var writes := SeedParticle(position, velocity, draws, i);
      log := log + writes;
      i := i + 1;
    }
    SeededTexelsAreInitialPositions(position[..], draws);
  }
}
