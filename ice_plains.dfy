/** The IcePlains biome (src/Environments/IcePlains.ts): a low, steep first layer,
    a damped second layer on top, one identity texture and three colour bands. */
module IcePlains {
  import opened Wrappers
  import opened RealMath
  import opened Environments
  import opened TerrainRules

  function Colors(): seq<SurfaceColor> {
    [ SurfaceColor(0.0, 0.15, Constant([0, 107, 206])),
      SurfaceColor(0.15, 0.23, Constant([180, 207, 250])),
      SurfaceColor(0.23, 1.0, Constant([255, 255, 255])) ]
  }

  function Textures(): seq<SurfaceTexture> {
    [ SurfaceTexture(0.0, 1.0, Identity) ]
  }

  function Layers(): seq<TerrainLayer> {
    [ TerrainLayer(0.0, 0.5, 8.0, 1.0, 8.0),
      TerrainLayer(0.5, 1.0, 32.0, 0.25, 1.0) ]
  }

  /** `IcePlains.instance()`. */
  function Instance(): Environment
  {
    Environment(Colors(), Textures(), Layers(), None)
  }

  /** The two layer bands are contiguous and cover [0,1). */
  lemma LayerBandsPartition(n: real)
    requires 0.0 <= n < 1.0
    ensures FirstLayerFrom(Layers(), 0, n).Some?
    ensures forall p :: 0 <= p < 2 && InLayer(n, Layers()[p]) ==> p == FirstLayerFrom(Layers(), 0, n).value
  {
    assert Tiling(Ranges(Layers(), LayerBand));
    TiledLayersMatchOnce(Layers(), n);
  }

  /** The layers' mapHeights add up to 40. */
  lemma BudgetTotal()
    ensures NonNegativeHeights(Layers()) && TotalBudget(Layers()) == 40.0
  {
    var l := Layers();
    assert Budget(l, 2, 2) == 0.0;
    assert Budget(l, 1, 2) == 32.0;
  }

  /** Noise below 0.5 lifts a zeroed cell to a height in [0, 8): the eighth power
      of an intensity below 1 stays below 1. */
  lemma LowGroundBelowEight(n: real, pow: (real, real) -> real)
    requires 0.0 <= n < 0.5
    requires PowOnUnit(pow)
    ensures LayerPass(Layers(), n, 0.0, pow).Accepted?
    ensures LayerPass(Layers(), n, 0.0, pow).budget == 8.0
    ensures 0.0 <= LayerPass(Layers(), n, 0.0, pow).height < 8.0
  {
    var l := Layers();
    BudgetTotal();
    LayerPassOnZeroedCell(l, 0, n, 0.0, pow);
    assert FirstLayerFrom(l, 0, n) == Some(0);
    assert Budget(l, 0, 1) == 8.0;
    var i := Intensity(n, l[0]);
    assert 0.0 <= pow(i, 8.0) < 1.0;
    ShareBelow(IntensityPow(n, l[0], pow), 8.0);
  }

  /** The second layer's scale of 0.25 caps its 32-unit budget at 8: noise in
      [0.5, 1) lifts a zeroed cell to a height in [8, 16], while the budget, and so
      the running maximum, reaches 40. */
  lemma HighGroundDamped(n: real, pow: (real, real) -> real)
    requires 0.5 <= n < 1.0
    requires PowOnUnit(pow)
    ensures LayerPass(Layers(), n, 0.0, pow).Accepted?
    ensures LayerPass(Layers(), n, 0.0, pow).budget == 40.0
    ensures 8.0 <= LayerPass(Layers(), n, 0.0, pow).height <= 16.0
  {
    var l := Layers();
    BudgetTotal();
    LayerPassOnZeroedCell(l, 0, n, 0.0, pow);
    assert FirstLayerFrom(l, 0, n) == Some(1);
    assert Budget(l, 0, 1) == 8.0;
    assert Budget(l, 0, 2) == 40.0;
    var i := Intensity(n, l[1]);
    assert 0.0 <= pow(i, 1.0) < 1.0;
    var t := IntensityPow(n, l[1], pow);
    assert t <= 0.25;
    ShareAtMost(t, 0.25, 32.0);
  }

  /** The colour bands cover [0,1]; at the boundaries the later band wins:
      0.15 is pale blue, 0.23 is white. */
  lemma ColorBands(v: real, b1: Level, b2: Level)
    requires 0.0 <= v <= 1.0
    requires b1 == Finite(0.15) && b2 == Finite(0.23)
    ensures LastColor(Colors(), Finite(v)).Some?
    ensures LastColor(Colors(), b1) == Some(1) && Colors()[1].callback == Constant([180, 207, 250])
    ensures LastColor(Colors(), b2) == Some(2) && Colors()[2].callback == Constant([255, 255, 255])
  {
    assert Tiling(Ranges(Colors(), ColorBand));
    TiledColorsCover(Colors(), v);
    TiledColorsBoundaryGoesLater(Colors(), 0, b1);
    TiledColorsBoundaryGoesLater(Colors(), 1, b2);
  }

  /** The single texture rule covers [0,1) with the identity callback. */
  lemma TextureIsIdentity(l: Level)
    requires l.Finite? && 0.0 <= l.value < 1.0
    ensures FirstTextureFrom(Textures(), 0, l) == Some(0)
    ensures Textures()[0].callback == Identity
  {
  }
}
