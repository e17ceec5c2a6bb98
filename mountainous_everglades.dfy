/** The MountainousEverglades biome (src/Environments/MountainousEverglades.ts):
    colour rules declared from high to low with a slope-dependent top band, a ripple
    texture on the low ground and a wave texture above 0.3, and three layers. The
    random depth `z` drawn at construction is a parameter. */
module MountainousEverglades {
  import opened Wrappers
  import opened RealMath
  import opened Environments
  import opened TerrainRules

  function Colors(): seq<SurfaceColor> {
    [ SurfaceColor(0.2, 1.0, Slope),
      SurfaceColor(0.15, 0.2, Constant([0, 128, 0])),
      SurfaceColor(0.1, 0.15, Constant([194, 178, 128])),
      SurfaceColor(0.0, 0.1, Constant([86, 67, 22])) ]
  }

  function Textures(z: real): seq<SurfaceTexture> {
    [ SurfaceTexture(0.0, 0.15, Ripple(z)),
      SurfaceTexture(0.3, 1.0, Wave) ]
  }

  function Layers(): seq<TerrainLayer> {
    [ TerrainLayer(0.0, 0.15, 5.0, 1.0, 2.0),
      TerrainLayer(0.15, 0.5, 8.0, 0.9, 1.0),
      TerrainLayer(0.5, 1.0, 48.0, 1.0, 1.0) ]
  }

  /** `MountainousEverglades.instance()` with the depth z it drew. */
  function Instance(z: real): Environment
  {
    Environment(Colors(), Textures(z), Layers(), None)
  }

  // ---------------------------------------------------------------- layers

  /** The three layer bands are contiguous and cover [0,1). */
  lemma LayerBandsPartition(n: real)
    requires 0.0 <= n < 1.0
    ensures FirstLayerFrom(Layers(), 0, n).Some?
    ensures forall p :: 0 <= p < 3 && InLayer(n, Layers()[p]) ==> p == FirstLayerFrom(Layers(), 0, n).value
  {
    assert Tiling(Ranges(Layers(), LayerBand));
    TiledLayersMatchOnce(Layers(), n);
  }

  /** The layers' mapHeights add up to 61. */
  lemma BudgetTotal()
    ensures NonNegativeHeights(Layers()) && TotalBudget(Layers()) == 61.0
  {
    var l := Layers();
    assert Budget(l, 3, 3) == 0.0;
    assert Budget(l, 2, 3) == 48.0;
    assert Budget(l, 1, 3) == 56.0;
  }

  /** The middle layer's scale of 0.9 caps its contribution at 7.2: noise in
      [0.15, 0.5) lifts a zeroed cell to between 5 and 12.2, with budget 13. */
  lemma MiddleLayerCapped(n: real, pow: (real, real) -> real)
    requires 0.15 <= n < 0.5
    requires PowOnUnit(pow)
    ensures LayerPass(Layers(), n, 0.0, pow).Accepted?
    ensures LayerPass(Layers(), n, 0.0, pow).budget == 13.0
    ensures 5.0 <= LayerPass(Layers(), n, 0.0, pow).height <= 12.2
  {
    var l := Layers();
    BudgetTotal();
    LayerPassOnZeroedCell(l, 0, n, 0.0, pow);
    assert FirstLayerFrom(l, 0, n) == Some(1);
    assert Budget(l, 0, 1) == 5.0;
    assert Budget(l, 0, 2) == 13.0;
    var i := Intensity(n, l[1]);
    assert 0.0 <= pow(i, 1.0) < 1.0;
    var t := IntensityPow(n, l[1], pow);
    assert t == pow(i, 1.0) * 0.9;
    assert t <= 0.9;
    ShareAtMost(t, 0.9, 8.0);
  }

  // ---------------------------------------------------------------- textures

  /** Levels below 0.15 ripple, levels in [0.15, 0.3) keep their height (no rule)
      and levels from 0.3 upwards wave. */
  lemma TextureBands(z: real, l: Level)
    requires l.Finite? && 0.0 <= l.value < 1.0
    ensures l.value < 0.15 ==> FirstTextureFrom(Textures(z), 0, l) == Some(0)
    ensures 0.15 <= l.value < 0.3 ==> FirstTextureFrom(Textures(z), 0, l) == None
    ensures 0.3 <= l.value ==> FirstTextureFrom(Textures(z), 0, l) == Some(1)
  {
  }

  /** The ripple loop's variables: the running value, the phase and the divisor. */
  datatype RippleState = RippleState(v: real, u: real, d: real)

  /** One octave: sample the noise at the scaled coordinates, keep the smaller of
      the raised value and the lowered original, take its phase, shrink the scale. */
  function RippleStep(h: real, x: real, y: real, z: real, host: Host, s: RippleState): (r: RippleState)
    requires s.d >= 1.0
    ensures r.d == s.d * 6.5 && r.d >= 1.0
    ensures r.v <= h - host.perlin(x / s.d, y / s.d, z)
  {
    var n := host.perlin(x / s.d, y / s.d, z);
    var v := Min(s.v + n, h - n);
    RippleState(v, Phase(v, host), s.d * 6.5)
  }

  /** `Math.sin(v * Math.PI)`. */
  function Phase(v: real, host: Host): real {
    host.sin(v * host.pi)
  }

  /** The octaves q .. 1 of the ripple loop. */
  function RippleFrom(h: real, x: real, y: real, z: real, host: Host, q: nat, s: RippleState): (r: RippleState)
    requires s.d >= 1.0
    decreases 2 - q
  {
    if q >= 2 then s else RippleFrom(h, x, y, z, host, q + 1, RippleStep(h, x, y, z, host, s))
  }

  /** The ripple texture of a cell of height h at (x, y): two octaves when z > 0.5,
      none otherwise, then `v + 0.5 cos(2 pi u)`. */
  function RippleValue(h: real, x: real, y: real, z: real, host: Host): real {
    var start := RippleState(h, 0.0, 1.0);
    var s := if z > 0.5 then RippleFrom(h, x, y, z, host, 0, start) else start;
    RippleOutput(s.v, s.u, host)
  }

  /** `v + 0.5 * Math.cos(u * Math.PI * 2)`. */
  function RippleOutput(v: real, u: real, host: Host): real {
    v + 0.5 * host.cos(u * host.pi * 2.0)
  }

  /** The ripple callback as the source runs it: a two-iteration loop. */
  method RippleTexture(data: seq<real>, j: nat, x: real, y: real, z: real, host: Host) returns (r: real)
    requires j < |data|
    ensures r == RippleValue(data[j], x, y, z, host)
  {
    var v := data[j];
    var u := 0.0;
    var d := 1.0;
    if z > 0.5 {
      var q := 0;
      while q < 2
        invariant 0 <= q <= 2 && d >= 1.0
        invariant RippleFrom(data[j], x, y, z, host, q, RippleState(v, u, d))
               == RippleFrom(data[j], x, y, z, host, 0, RippleState(data[j], 0.0, 1.0))
      {
        ghost var s := RippleState(v, u, d);
        var n := host.perlin(x / d, y / d, z);
        v := Min(v + n, data[j] - n);
        u := Phase(v, host);
        d := d * 6.5;
        assert RippleState(v, u, d) == RippleStep(data[j], x, y, z, host, s);
        q := q + 1;
      }
      assert RippleFrom(data[j], x, y, z, host, 2, RippleState(v, u, d)) == RippleState(v, u, d);
    }
    r := RippleOutput(v, u, host);
  }

  /** With z at most 0.5 the loop does not run: the ripple lifts every height by
      exactly 0.5 (cos 0 = 1). */
  lemma CalmRippleLiftsByHalf(h: real, x: real, y: real, z: real, host: Host)
    requires z <= 0.5
    requires host.cos(0.0) == 1.0
    ensures RippleValue(h, x, y, z, host) == h + 0.5
  {
    assert 0.0 * host.pi * 2.0 == 0.0;
  }

  /** With bounded cosine the ripple lands within 0.5 of the loop's value, and with
      z > 0.5 that value is at most h minus the second octave's noise sample. */
  lemma RippleBounds(h: real, x: real, y: real, z: real, host: Host)
    requires TrigBounded(host)
    ensures z <= 0.5 ==> h - 0.5 <= RippleValue(h, x, y, z, host) <= h + 0.5
    ensures z > 0.5 ==> RippleValue(h, x, y, z, host) <= h - host.perlin(x / 6.5, y / 6.5, z) + 0.5
  {
    var start := RippleState(h, 0.0, 1.0);
    if z > 0.5 {
      var s1 := RippleStep(h, x, y, z, host, start);
      assert s1.d == 6.5;
      var s2 := RippleStep(h, x, y, z, host, s1);
      assert RippleFrom(h, x, y, z, host, 0, start) == s2;
    }
    var s := if z > 0.5 then RippleFrom(h, x, y, z, host, 0, start) else start;
    assert -1.0 <= host.cos(s.u * host.pi * 2.0) <= 1.0;
  }

  /** The wave texture: `data[j] + (cos 12x + sin 6y)^2 * 0.5`; it never lowers a cell. */
  function WaveValue(h: real, x: real, y: real, host: Host): (r: real)
    ensures r >= h
  {
    h + Square(host.cos(x * 12.0) + host.sin(y * 6.0)) * 0.5
  }

  /** With bounded sine and cosine the wave lifts a cell by at most 2. */
  lemma WaveLiftAtMostTwo(h: real, x: real, y: real, host: Host)
    requires TrigBounded(host)
    ensures h <= WaveValue(h, x, y, host) <= h + 2.0
  {
    var s := host.cos(x * 12.0) + host.sin(y * 6.0);
    assert -2.0 <= s <= 2.0;
    SquareAtMost(s, 2.0);
  }

  lemma SquareAtMost(s: real, b: real)
    requires 0.0 <= b && -b <= s <= b
    ensures Square(s) <= b * b
  {
    if s >= 0.0 {
      assert s * s <= b * s;
      assert b * s <= b * b;
    } else {
      assert (-s) * (-s) <= b * (-s);
      assert b * (-s) <= b * b;
    }
  }

  // ---------------------------------------------------------------- colours

  /** Declared from high to low, so at a shared boundary the LOWER band (declared
      later) wins: up to 0.1 sand-brown, up to 0.15 sand, up to 0.2 green, above it
      the slope colour. */
  lemma ColorBands(l: Level)
    requires l.Finite? && 0.0 <= l.value <= 1.0
    ensures l.value <= 0.1 ==> LastColor(Colors(), l) == Some(3)
    ensures 0.1 < l.value <= 0.15 ==> LastColor(Colors(), l) == Some(2)
    ensures 0.15 < l.value <= 0.2 ==> LastColor(Colors(), l) == Some(1)
    ensures 0.2 < l.value ==> LastColor(Colors(), l) == Some(0)
  {
    var c := Colors();
    var r := LastColor(c, l);
    var m := seq(4, i requires 0 <= i < 4 => ColorMatches(l, c[i]));
    assert m[0] == (0.2 <= l.value) && m[1] == (0.15 <= l.value <= 0.2);
    assert m[2] == (0.1 <= l.value <= 0.15) && m[3] == (l.value <= 0.1);
    assert r.Some? && r.value < 4 && m[r.value];
    assert forall i :: r.value < i < 4 ==> !m[i];
  }

  /** `data[k] || 0`: a read outside the buffer gives 0. */
  function Neighbour(data: seq<real>, k: int): real {
    if 0 <= k < |data| then data[k] else 0.0
  }

  /** A flat index is its column plus its row times the width. */
  lemma SplitIndex(j: nat, width: nat)
    requires width > 0
    ensures j % width + (j / width) * width == j
  {
  }

  /** The slope colour of cell j: the direction of the height gradient picks dark
      brown when it points within 45 degrees of -90 degrees, green within 45 degrees
      of +90 degrees, grey-blue otherwise and on flat ground (a zero gradient has no
      direction: NaN fails both tests). Neighbour reads use the row-major index, so
      at x = 0 the left read is the previous row's last cell. */
  function SlopeColor(data: seq<real>, j: nat, width: nat, host: Host): (r: Color)
    requires width > 0
    ensures r == [80, 69, 67] || r == [0, 128, 0] || r == [65, 71, 74]
    ensures Neighbour(data, j + 1) == Neighbour(data, j - 1) && Neighbour(data, j + width) == Neighbour(data, j - width)
            ==> r == [65, 71, 74]
  {
    var x := j % width;
    var y := j / width;
    SplitIndex(j, width);
    var nx := Neighbour(data, (x + 1) + y * width) - Neighbour(data, (x - 1) + y * width);
    var ny := Neighbour(data, x + (y + 1) * width) - Neighbour(data, x + (y - 1) * width);
    if nx == 0.0 && ny == 0.0 then [65, 71, 74]
    else
      var ang := host.gradientAngle(nx, ny);
      var ps := host.pi * 0.25;
      var down := -90.0 * (host.pi / 180.0);
      var up := 90.0 * (host.pi / 180.0);
      if Abs(down - ang) < ps then [80, 69, 67]
      else if Abs(up - ang) < ps then [0, 128, 0]
      else [65, 71, 74]
  }

  function Abs(t: real): real { if t < 0.0 then -t else t }

  /** The two direction tests never both hold, so their order does not matter. */
  lemma SlopeTestsExclusive(ang: real, pi: real)
    requires pi > 0.0
    ensures !(Abs(-90.0 * (pi / 180.0) - ang) < pi * 0.25 && Abs(90.0 * (pi / 180.0) - ang) < pi * 0.25)
  {
  }
}
