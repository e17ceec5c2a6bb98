/** The DesertCanyons biome (src/Environments/DesertCanyon.ts): nine stacked
    layers, ten colour bands alternating with a sand colour, one identity texture
    and a water level of 10. */
module DesertCanyons {
  import opened Wrappers
  import opened Environments
  import opened TerrainRules

  /** The sand colour every second colour band uses. */
  const Sand: Color := [254, 243, 223]

  function Colors(): seq<SurfaceColor> {
    [ SurfaceColor(0.0, 0.18, Constant([88, 2, 1])),
      SurfaceColor(0.18, 0.21, Constant(Sand)),
      SurfaceColor(0.21, 0.37, Constant([171, 0, 104])),
      SurfaceColor(0.37, 0.42, Constant(Sand)),
      SurfaceColor(0.42, 0.58, Constant([224, 7, 2])),
      SurfaceColor(0.58, 0.61, Constant(Sand)),
      SurfaceColor(0.61, 0.77, Constant([255, 108, 2])),
      SurfaceColor(0.77, 0.84, Constant(Sand)),
      SurfaceColor(0.84, 0.97, Constant([254, 193, 6])),
      SurfaceColor(0.97, 1.0, Constant(Sand)) ]
  }

  function Textures(): seq<SurfaceTexture> {
    [ SurfaceTexture(0.0, 1.0, Identity) ]
  }

  function Layers(): seq<TerrainLayer> {
    [ TerrainLayer(0.0, 0.2, 10.0, 1.0, 1.0),
      TerrainLayer(0.2, 0.3, 8.0, 5.0, 4.0),
      TerrainLayer(0.3, 0.4, 2.0, 1.0, 1.0),
      TerrainLayer(0.4, 0.5, 8.0, 5.0, 4.0),
      TerrainLayer(0.5, 0.6, 2.0, 1.0, 1.0),
      TerrainLayer(0.6, 0.7, 8.0, 5.0, 4.0),
      TerrainLayer(0.7, 0.8, 2.0, 1.0, 1.0),
      TerrainLayer(0.8, 0.9, 8.0, 5.0, 4.0),
      TerrainLayer(0.9, 1.0, 2.0, 1.0, 1.0) ]
  }

  /** `DesertCanyons.instance()`. */
  function Instance(): Environment
  {
    Environment(Colors(), Textures(), Layers(), Some(10.0))
  }

  /** DesertCanyons is the only biome that declares a water level: 10. */
  lemma WaterLevel()
    ensures Instance().waterLevel == Some(10.0)
  {
  }

  /** The nine layer bands are contiguous and cover [0,1): every noise value below 1
      falls in exactly one of them. */
  lemma LayerBandsPartition(n: real)
    requires 0.0 <= n < 1.0
    ensures FirstLayerFrom(Layers(), 0, n).Some?
    ensures forall p :: 0 <= p < 9 && InLayer(n, Layers()[p]) ==> p == FirstLayerFrom(Layers(), 0, n).value
  {
    var rs := Ranges(Layers(), LayerBand);
    assert Tiling(rs);
    TiledLayersMatchOnce(Layers(), n);
  }

  /** The layers' mapHeights add up to 50. */
  lemma BudgetTotal()
    ensures NonNegativeHeights(Layers()) && TotalBudget(Layers()) == 50.0
  {
    var l := Layers();
    assert Budget(l, 9, 9) == 0.0;
    assert Budget(l, 8, 9) == 2.0;
    assert Budget(l, 7, 9) == 10.0;
    assert Budget(l, 6, 9) == 12.0;
    assert Budget(l, 5, 9) == 20.0;
    assert Budget(l, 4, 9) == 22.0;
    assert Budget(l, 3, 9) == 30.0;
    assert Budget(l, 2, 9) == 32.0;
    assert Budget(l, 1, 9) == 40.0;
    assert Budget(l, 0, 9) == 50.0;
  }

  /** No accepted height on a zeroed cell is negative or exceeds 50. */
  lemma HeightsWithinBudget(n: real, pow: (real, real) -> real)
    ensures LayerPass(Layers(), n, 0.0, pow).Accepted? ==> 0.0 <= LayerPass(Layers(), n, 0.0, pow).height <= 50.0
  {
    BudgetTotal();
    AcceptedWithinBudget(Layers(), n, pow);
    if LayerPass(Layers(), n, 0.0, pow).Accepted? {
      BudgetNonNegative(Layers(), 0, FirstLayerFrom(Layers(), 0, n).value);
    }
  }

  /** The ten inclusive colour bands are contiguous and cover [0,1]: every finite
      level in [0,1] gets a colour. */
  lemma ColorBandsCover(v: real)
    requires 0.0 <= v <= 1.0
    ensures LastColor(Colors(), Finite(v)).Some?
  {
    assert Tiling(Ranges(Colors(), ColorBand));
    TiledColorsCover(Colors(), v);
  }

  /** At the shared boundary 0.18 both neighbours match and the later one, sand, wins. */
  lemma SharedBoundaryGoesToLaterRule()
    ensures LastColor(Colors(), Finite(0.18)) == Some(1)
    ensures Colors()[1].callback == Constant([254, 243, 223])
  {
    assert Tiling(Ranges(Colors(), ColorBand));
    TiledColorsBoundaryGoesLater(Colors(), 0, Finite(0.18));
  }

  /** Every colour callback returns a constant triplet with channels in 0..255. */
  lemma ColorsAreByteTriplets(i: nat)
    requires i < |Colors()|
    ensures Colors()[i].callback.Constant?
    ensures |Colors()[i].callback.rgb| == 3
    ensures forall c :: 0 <= c < 3 ==> 0 <= Colors()[i].callback.rgb[c] <= 255
  {
  }

  /** The single texture rule covers [0,1) with the identity callback. */
  lemma TextureIsIdentity(v: real)
    requires 0.0 <= v < 1.0
    ensures FirstTextureFrom(Textures(), 0, Finite(v)) == Some(0)
    ensures Textures()[0].callback == Identity
  {
  }
}
