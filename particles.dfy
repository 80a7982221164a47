/**
 * The particle record of the snow demo, its packed texture layout, and the
 * one-off random initialisation performed by `genparticletex`.
 *
 * Floats are modelled as `real` (no rounding); the C `rand()` generator is
 * replaced by the sequence of values it returned, in call order.
 */
module Particles {

  /** Number of particles (`nparticles`). */
  const NParticles: nat := 8192

  /** Number of floats in one packed record (`szparticle`). */
  const SzParticle: nat := 16

  /** Number of `rand()` calls made to initialise one record. */
  const DrawsPerParticle: nat := 11

  /** Offsets of the fields inside one packed record (one texel each). */
  const OffX: nat := 0
  const OffY: nat := 1
  const OffZ: nat := 2
  const OffVX: nat := 3
  const OffVY: nat := 4
  const OffVZ: nat := 5
  const OffAX: nat := 6
  const OffAY: nat := 7
  const OffAZ: nat := 8
  const OffScale: nat := 9
  const OffInitialX: nat := 10
  const OffInitialY: nat := 11
  const OffInitialZ: nat := 12
  const OffInitialVX: nat := 13
  const OffInitialVY: nat := 14
  const OffInitialVZ: nat := 15

  /** One particle: live position, velocity, acceleration, sprite scale and the reset snapshot. */
  datatype Particle = Particle(
    x: real, y: real, z: real,
    vx: real, vy: real, vz: real,
    ax: real, ay: real, az: real,
    scale: real,
    initialx: real, initialy: real, initialz: real,
    initialvx: real, initialvy: real, initialvz: real)

  /** The record read back from one row of the particle texture. */
  function FromFields(s: seq<real>): Particle
    requires |s| == SzParticle
  {
    Particle(s[0], s[1], s[2], s[3], s[4], s[5], s[6], s[7],
             s[8], s[9], s[10], s[11], s[12], s[13], s[14], s[15])
  }

  /** The packed row of floats the record occupies in the texture, in declaration order. */
  function Fields(p: Particle): (r: seq<real>)
    ensures |r| == SzParticle
    ensures FromFields(r) == p
    ensures r[OffX] == p.x && r[OffY] == p.y && r[OffZ] == p.z
    ensures r[OffVX] == p.vx && r[OffVY] == p.vy && r[OffVZ] == p.vz
    ensures r[OffAX] == p.ax && r[OffAY] == p.ay && r[OffAZ] == p.az
    ensures r[OffScale] == p.scale
    ensures r[OffInitialX] == p.initialx && r[OffInitialY] == p.initialy && r[OffInitialZ] == p.initialz
    ensures r[OffInitialVX] == p.initialvx && r[OffInitialVY] == p.initialvy && r[OffInitialVZ] == p.initialvz
  {
    [p.x, p.y, p.z, p.vx, p.vy, p.vz, p.ax, p.ay, p.az, p.scale,
     p.initialx, p.initialy, p.initialz, p.initialvx, p.initialvy, p.initialvz]
  }

  /** Reading a row back and packing it again gives the same row. */
  lemma FieldsOfFromFields(s: seq<real>)
    requires |s| == SzParticle
    ensures Fields(FromFields(s)) == s
  {
    var r := Fields(FromFields(s));
    forall i | 0 <= i < SzParticle ensures r[i] == s[i] {
    }
  }

  /** `rand01()`: a raw `rand()` value mapped onto 10001 evenly spaced points of [0, 1]. */
  function Rand01(draw: nat): (r: real)
    ensures 0.0 <= r <= 1.0
  {
    (draw % 10001) as real / 10000.0
  }

  /** `randrange(s, e)`: one draw placed on the segment from `s` to `e`. */
  function RandRange(s: real, e: real, draw: nat): (r: real)
    ensures s <= e ==> s <= r <= e
    ensures e <= s ==> e <= r <= s
  {
    OnSegment(s, e, Rand01(draw));
    Lerp(s, e, Rand01(draw))
  }

  /** The point a fraction `t` of the way from `s` to `e`. */
  function Lerp(s: real, e: real, t: real): real
  {
    s + (e - s) * t
  }

  /** A point `t` of [0, 1] placed on the segment from `s` to `e` stays between its ends. */
  lemma OnSegment(s: real, e: real, t: real)
    requires 0.0 <= t <= 1.0
    ensures s <= e ==> s <= Lerp(s, e, t) <= e
    ensures e <= s ==> e <= Lerp(s, e, t) <= s
  {
    var d := e - s;
    var m := d * t;
    assert m == (e - s) * t;
    if s <= e {
      MulLeOne(d, t);
    } else {
      MulLeOne(-d, t);
      assert (-d) * t == -m;
    }
  }

  lemma MulLeOne(a: real, t: real)
    requires 0.0 <= a && 0.0 <= t <= 1.0
    ensures 0.0 <= a * t && a * t <= a
  {
    assert a * 1.0 - a * t == a * (1.0 - t);
  }

  /** The ranges every freshly initialised record lies in, and its snapshot of the live fields. */
  predicate Initialised(p: Particle)
  {
    && p.initialx == p.x && p.initialz == p.z
    && p.initialvx == p.vx && p.initialvy == p.vy && p.initialvz == p.vz
    && -5.5 <= p.x <= 5.5 && -5.5 <= p.z <= 5.5
    && 0.0 <= p.y <= 5.5
    && 4.5 <= p.initialy <= 6.0
    && -0.5 <= p.vx <= 0.5 && -0.5 <= p.vz <= 0.5
    && -0.5 <= p.vy <= -0.15
    && -0.015 <= p.ax <= 0.015 && -0.015 <= p.az <= 0.015
    && -0.015 <= p.ay <= -0.001
    && 0.025 <= p.scale <= 0.085
  }

  /**
   * One record as `genparticletex` fills it from eleven consecutive draws, in
   * the order x, y, initialy, z, vx, vy, vz, ax, ay, az, scale.
   */
  function MakeParticle(d: seq<nat>): (p: Particle)
    requires |d| == DrawsPerParticle
    ensures Initialised(p)
    ensures p.vy < 0.0 && p.ay < 0.0
    ensures p.y <= p.initialy + 1.0
  {
    var x := RandRange(-5.5, 5.5, d[0]);
    var y := RandRange(0.0, 5.5, d[1]);
    var iy := RandRange(4.5, 6.0, d[2]);
    var z := RandRange(-5.5, 5.5, d[3]);
    var vx := RandRange(-0.5, 0.5, d[4]);
    var vy := RandRange(-0.5, -0.15, d[5]);
    var vz := RandRange(-0.5, 0.5, d[6]);
    var ax := RandRange(-0.015, 0.015, d[7]);
    var ay := RandRange(-0.015, -0.001, d[8]);
    var az := RandRange(-0.015, 0.015, d[9]);
    var scale := RandRange(0.025, 0.085, d[10]);
    Particle(x, y, z, vx, vy, vz, ax, ay, az, scale, x, iy, z, vx, vy, vz)
  }

  /** The draws consumed by record `i`. */
  function DrawsFor(draws: seq<nat>, i: nat): (d: seq<nat>)
    requires DrawsPerParticle * (i + 1) <= |draws|
    ensures |d| == DrawsPerParticle
  {
    draws[DrawsPerParticle * i .. DrawsPerParticle * (i + 1)]
  }

  /**
   * The initial particle population, filled record by record as `genparticletex`
   * does; `draws` are the successive `rand()` results.
   */
  method GenParticleData(draws: seq<nat>) returns (data: seq<Particle>)
    requires |draws| == DrawsPerParticle * NParticles
    ensures |data| == NParticles
    ensures forall i :: 0 <= i < NParticles ==> data[i] == MakeParticle(DrawsFor(draws, i))
    ensures forall i :: 0 <= i < NParticles ==> Initialised(data[i])
  {
    var pdata := new Particle[NParticles];
    var i := 0;
    while i < NParticles
      invariant 0 <= i <= NParticles
      invariant forall j :: 0 <= j < i ==> pdata[j] == MakeParticle(DrawsFor(draws, j))
    {
      pdata[i] := MakeParticle(DrawsFor(draws, i));
      i := i + 1;
    }
    data := pdata[..];
  }

  /** The row-major texel buffer uploaded as a `szparticle` x `nparticles` single-channel texture. */
  function Texels(ps: seq<Particle>): seq<real>
  {
    if ps == [] then [] else Fields(ps[0]) + Texels(ps[1..])
  }

  /** Texel (row `i`, column `f`) of the uploaded texture is field `f` of record `i`. */
  lemma {:induction false} TexelAt(ps: seq<Particle>, i: nat, f: nat)
    requires i < |ps| && f < SzParticle
    ensures |Texels(ps)| == SzParticle * |ps|
    ensures Texels(ps)[SzParticle * i + f] == Fields(ps[i])[f]
  {
    TexelsLength(ps);
    if i > 0 {
      TexelAt(ps[1..], i - 1, f);
      assert SzParticle * i + f == SzParticle + (SzParticle * (i - 1) + f);
    }
  }

  lemma {:induction false} TexelsLength(ps: seq<Particle>)
    ensures |Texels(ps)| == SzParticle * |ps|
  {
    if ps != [] {
      TexelsLength(ps[1..]);
    }
  }

  /** Reading row `i` back out of the texel buffer gives record `i` again. */
  lemma RowRoundTrip(ps: seq<Particle>, i: nat)
    requires i < |ps|
    ensures |Texels(ps)| == SzParticle * |ps|
    ensures SzParticle * (i + 1) <= |Texels(ps)|
    ensures FromFields(Texels(ps)[SzParticle * i .. SzParticle * (i + 1)]) == ps[i]
  {
    TexelsLength(ps);
    var row := Texels(ps)[SzParticle * i .. SzParticle * (i + 1)];
    forall f | 0 <= f < SzParticle ensures row[f] == Fields(ps[i])[f] {
      TexelAt(ps, i, f);
    }
    assert row == Fields(ps[i]);
  }

  /**
   * `genparticletex` as a whole: the texture it uploads has `szparticle` columns
   * and `nparticles` rows, and every row decodes to an initialised record.
   */
  method GenParticleTexels(draws: seq<nat>) returns (texels: seq<real>)
    requires |draws| == DrawsPerParticle * NParticles
    ensures |texels| == SzParticle * NParticles
    ensures forall i :: 0 <= i < NParticles ==>
      Initialised(FromFields(texels[SzParticle * i .. SzParticle * (i + 1)]))
  {
    var data := GenParticleData(draws);
    texels := Texels(data);
    TexelsLength(data);
    forall i | 0 <= i < NParticles
      ensures Initialised(FromFields(texels[SzParticle * i .. SzParticle * (i + 1)]))
    {
      RowRoundTrip(data, i);
    }
  }
}
