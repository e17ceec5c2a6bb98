/** The TestTerrain biome (src/Environments/Test.ts): one colour given by the
    caller, one texture that optionally darkens every other 4-cell stripe, and one
    linear 64-unit layer. */
module TestTerrain {
  import opened Wrappers
  import opened RealMath
  import opened Environments
  import opened TerrainRules

  /** `new TestTerrain(color, striped)`; the constructor's default is striped = false. */
  function New(color: Color, striped: bool): Environment
  {
    Environment([SurfaceColor(0.0, 1.0, Constant(color))],
                [SurfaceTexture(0.0, 1.0, Stripe(striped))],
                Layers(), None)
  }

  function Layers(): seq<TerrainLayer> {
    [ TerrainLayer(0.0, 1.0, 64.0, 1.0, 1.0) ]
  }

  /** The texture's factor for cell j: 1 on the even 4-cell stripes when striped,
      0.95 everywhere else. `(j * 0.25) | 0` is j / 4 for the indices the scan uses. */
  function StripeFactor(striped: bool, j: nat): real {
    if striped && (j / 4) % 2 == 0 then 1.0 else 0.95
  }

  /** The texture callback: the stored height times the stripe factor. */
  function StripeValue(h: real, j: nat, striped: bool): (r: real)
    ensures h >= 0.0 ==> 0.95 * h <= r <= h
    ensures !striped ==> r == 0.95 * h
    ensures striped && (j / 4) % 2 == 0 ==> r == h
    ensures striped && (j / 4) % 2 == 1 ==> r == 0.95 * h
  {
    StripeFactor(striped, j) * h
  }

  /** Stripes are four cells wide and repeat every eight cells. */
  lemma StripePeriod(j: nat, striped: bool)
    ensures StripeFactor(striped, j) == StripeFactor(striped, j + 8)
    ensures StripeFactor(striped, j) == StripeFactor(striped, 4 * (j / 4))
    ensures striped ==> StripeFactor(striped, j) != StripeFactor(striped, j + 4)
  {
    assert (j + 8) / 4 == j / 4 + 2;
    assert (j + 4) / 4 == j / 4 + 1;
    assert (4 * (j / 4)) / 4 == j / 4;
  }

  /** With `Math.pow(t, 1) = t` the layer is linear: noise n in [0,1) lifts a zeroed
      cell to 64 n, and noise 1 leaves it at 0. */
  lemma LinearLayer(n: real, pow: (real, real) -> real)
    requires 0.0 <= n < 1.0
    requires pow(n, 1.0) == n
    ensures LayerPass(Layers(), n, 0.0, pow) == Accepted(64.0 * n, 64.0)
    ensures LayerPass(Layers(), 1.0, 0.0, pow) == Unmatched
  {
    var l := Layers();
    LayerPassOnZeroedCell(l, 0, n, 0.0, pow);
    assert FirstLayerFrom(l, 0, n) == Some(0);
    assert Budget(l, 0, 0) == 0.0;
    assert Budget(l, 0, 1) == 64.0;
    assert Intensity(n, l[0]) == n;
    assert IntensityPow(n, l[0], pow) == n;
    NoiseOneMatchesNoLayer(l, 0.0, pow);
  }

  /** Every level a cell can have, NaN included, gets the caller's colour. */
  lemma EveryLevelGetsTheColor(color: Color, striped: bool, l: Level)
    requires l.NaN? || 0.0 <= l.value <= 1.0
    ensures LastColor(New(color, striped).surfaceColors, l) == Some(0)
    ensures New(color, striped).surfaceColors[0].callback == Constant(color)
  {
  }
}
