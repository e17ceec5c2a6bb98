/** The Bluffs biome (src/Environments/Bluffs.ts): four layers whose lower two
    saturate halfway up their bands (flat tops), a terracing texture in the middle
    levels and three colour bands. */
module Bluffs {
  import opened Wrappers
  import opened RealMath
  import opened Environments
  import opened TerrainRules

  function Colors(): seq<SurfaceColor> {
    [ SurfaceColor(0.0, 0.15, Constant([254, 243, 223])),
      SurfaceColor(0.15, 0.95, Constant([128, 128, 128])),
      SurfaceColor(0.95, 1.0, Constant([0, 128, 0])) ]
  }

  function Textures(): seq<SurfaceTexture> {
    [ SurfaceTexture(0.8, 1.0, Identity),
      SurfaceTexture(0.3, 0.8, FloorToFive),
      SurfaceTexture(0.0, 0.3, Identity) ]
  }

  function Layers(): seq<TerrainLayer> {
    [ TerrainLayer(0.0, 0.25, 8.0, 2.0, 1.0),
      TerrainLayer(0.25, 0.5, 8.0, 2.0, 1.0),
      TerrainLayer(0.5, 0.75, 48.0, 1.0, 0.75),
      TerrainLayer(0.75, 1.0, 4.0, 4.0, 2.0) ]
  }

  /** `Bluffs.instance()`. */
  function Instance(): Environment
  {
    Environment(Colors(), Textures(), Layers(), None)
  }

  // ---------------------------------------------------------------- layers

  /** The four layer bands are contiguous and cover [0,1). */
  lemma LayerBandsPartition(n: real)
    requires 0.0 <= n < 1.0
    ensures FirstLayerFrom(Layers(), 0, n).Some?
    ensures forall p :: 0 <= p < 4 && InLayer(n, Layers()[p]) ==> p == FirstLayerFrom(Layers(), 0, n).value
  {
    assert Tiling(Ranges(Layers(), LayerBand));
    TiledLayersMatchOnce(Layers(), n);
  }

  /** The layers' mapHeights add up to 68. */
  lemma BudgetTotal()
    ensures NonNegativeHeights(Layers()) && TotalBudget(Layers()) == 68.0
  {
    var l := Layers();
    assert Budget(l, 4, 4) == 0.0;
    assert Budget(l, 3, 4) == 4.0;
    assert Budget(l, 2, 4) == 52.0;
    assert Budget(l, 1, 4) == 60.0;
  }

  /** Scale 2 saturates halfway up the first band: all noise in [0.125, 0.25)
      lifts a zeroed cell to exactly 8, a flat top. */
  lemma FirstBandFlatTop(n: real, pow: (real, real) -> real)
    requires 0.125 <= n < 0.25
    requires forall t :: pow(t, 1.0) == t
    ensures LayerPass(Layers(), n, 0.0, pow) == Accepted(8.0, 8.0)
  {
    var l := Layers();
    BudgetTotal();
    LayerPassOnZeroedCell(l, 0, n, 0.0, pow);
    assert FirstLayerFrom(l, 0, n) == Some(0);
    assert Budget(l, 0, 1) == 8.0;
    var i := Intensity(n, l[0]);
    assert i >= 0.5;
    assert IntensityPow(n, l[0], pow) == 1.0;
  }

  /** Likewise noise in [0.375, 0.5) lifts a zeroed cell to exactly 16. */
  lemma SecondBandFlatTop(n: real, pow: (real, real) -> real)
    requires 0.375 <= n < 0.5
    requires forall t :: pow(t, 1.0) == t
    ensures LayerPass(Layers(), n, 0.0, pow) == Accepted(16.0, 16.0)
  {
    var l := Layers();
    BudgetTotal();
    LayerPassOnZeroedCell(l, 0, n, 0.0, pow);
    assert FirstLayerFrom(l, 0, n) == Some(1);
    assert Budget(l, 0, 1) == 8.0;
    assert Budget(l, 0, 2) == 16.0;
    var i := Intensity(n, l[1]);
    assert i >= 0.5;
    assert IntensityPow(n, l[1], pow) == 1.0;
  }

  // ---------------------------------------------------------------- textures

  /** `Math.floor(h / 5) * 5`: the terrace of a height. */
  function Terrace(h: real): (r: real)
    ensures r <= h < r + 5.0
    ensures (r / 5.0).Floor as real * 5.0 == r
  {
    var k := (h / 5.0).Floor;
    assert (k as real * 5.0) / 5.0 == k as real;
    k as real * 5.0
  }

  /** Terracing a terrace changes nothing. */
  lemma TerraceIdempotent(h: real)
    ensures Terrace(Terrace(h)) == Terrace(h)
  {
    var r := Terrace(h);
    assert (r / 5.0).Floor as real * 5.0 == r;
  }

  /** The three half-open texture bands, declared from high to low, split [0,1):
      levels in [0.3, 0.8) are terraced, the others keep their height. */
  lemma TextureBands(l: Level)
    requires l.Finite? && 0.0 <= l.value < 1.0
    ensures FirstTextureFrom(Textures(), 0, l) ==
      if l.value >= 0.8 then Some(0) else if l.value >= 0.3 then Some(1) else Some(2)
    ensures forall p :: 0 <= p < 3 && TextureMatches(l, Textures()[p]) ==> Some(p) == FirstTextureFrom(Textures(), 0, l)
    ensures Textures()[FirstTextureFrom(Textures(), 0, l).value].callback ==
      if 0.3 <= l.value < 0.8 then FloorToFive else Identity
  {
  }

  // ---------------------------------------------------------------- colours

  /** The three inclusive colour bands cover [0,1]; at the shared boundaries the
      later band wins: 0.15 is grey, 0.95 is green. */
  lemma ColorBands(v: real, b1: Level, b2: Level)
    requires 0.0 <= v <= 1.0
    requires b1 == Finite(0.15) && b2 == Finite(0.95)
    ensures LastColor(Colors(), Finite(v)).Some?
    ensures LastColor(Colors(), b1) == Some(1) && Colors()[1].callback == Constant([128, 128, 128])
    ensures LastColor(Colors(), b2) == Some(2) && Colors()[2].callback == Constant([0, 128, 0])
  {
    assert Tiling(Ranges(Colors(), ColorBand));
    TiledColorsCover(Colors(), v);
    TiledColorsBoundaryGoesLater(Colors(), 0, b1);
    TiledColorsBoundaryGoesLater(Colors(), 1, b2);
  }
}
