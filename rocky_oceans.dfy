/** The RockyOceans biome (src/Environments/RockyOceans.ts): one grey colour, one
    identity texture and one steep 64-unit layer. */
module RockyOceans {
  import opened Wrappers
  import opened RealMath
  import opened Environments
  import opened TerrainRules

  function Layers(): seq<TerrainLayer> {
    [ TerrainLayer(0.0, 1.0, 64.0, 2.0, 4.0) ]
  }

  /** `RockyOceans.instance()`. */
  function Instance(): Environment
  {
    Environment([SurfaceColor(0.0, 1.0, Constant([128, 128, 128]))],
                [SurfaceTexture(0.0, 1.0, Identity)],
                Layers(), None)
  }

  /** With `Math.pow(n, 4) = n^4`, noise n in [0,1) lifts a zeroed cell to
      64 min(1, 2 n^4), and noise 1 (the noisiest cell) leaves it at 0. */
  lemma SteepLayer(n: real, pow: (real, real) -> real)
    requires 0.0 <= n < 1.0
    requires pow(n, 4.0) == n * n * n * n
    ensures LayerPass(Layers(), n, 0.0, pow) == Accepted(64.0 * Min(1.0, 2.0 * (n * n * n * n)), 64.0)
    ensures LayerPass(Layers(), 1.0, 0.0, pow) == Unmatched
  {
    var l := Layers();
    LayerPassOnZeroedCell(l, 0, n, 0.0, pow);
    assert FirstLayerFrom(l, 0, n) == Some(0);
    assert Budget(l, 0, 0) == 0.0;
    assert Budget(l, 0, 1) == 64.0;
    assert Intensity(n, l[0]) == n;
    FourthPowerNonNegative(n);
    assert IntensityPow(n, l[0], pow) == Min(1.0, 2.0 * (n * n * n * n));
    NoiseOneMatchesNoLayer(l, 0.0, pow);
  }

  lemma FourthPowerNonNegative(n: real)
    ensures n * n * n * n >= 0.0
  {
    assert n * n >= 0.0;
    assert n * n * n * n == (n * n) * (n * n);
  }

  /** Every level a cell can have, NaN included, is grey. */
  lemma EveryLevelIsGrey(l: Level)
    requires l.NaN? || 0.0 <= l.value <= 1.0
    ensures LastColor(Instance().surfaceColors, l) == Some(0)
  {
  }

  /** The single texture rule covers [0,1) with the identity callback, so texturing
      leaves heights unchanged. */
  lemma TextureIsIdentity(l: Level)
    requires l.Finite? && 0.0 <= l.value < 1.0
    ensures FirstTextureFrom(Instance().surfaceTextures, 0, l) == Some(0)
    ensures Instance().surfaceTextures[0].callback == Identity
  {
  }
}
