# procedural-terrain in Dafny

A model of the tile-synthesis engine of procedural-terrain: the `Terrain` tile and the
biome tables (`IEnvironment`) that drive it. Heights are exact `real`s.

- **Biome tables** (`Environments`, `Bluffs`, `DesertCanyons`, `IcePlains`,
  `MountainousEverglades`, `RockyOceans`, `TestTerrain`). An environment is three ordered
  rule lists plus an optional water level:
  - terrain layers: five numbers each;
  - surface textures: a threshold range and a callback;
  - surface colours: a threshold range and a callback.

  Callbacks are tagged variants. Module `Callbacks` gives each tag the meaning the biome
  declares. The layer, texture and colour bands are proved facts per biome: how they
  tile [0,1], their height budgets, and which rule wins at a shared boundary.
- **Per-cell rules** (`TerrainRules`):
  - the layer pass, with its growing height budget and first-match over half-open
    noise bands;
  - the texture pass, first-match over half-open bands of normalised height;
  - the colour pass, where every inclusive band that matches writes, so the last one
    wins;
  - normalisation against the running maximum, including JavaScript's NaN for 0/0.
- **The scan as values** (`Synthesis`):
  - noise sampling and per-tile normalisation (`createNoiseData`);
  - graphXY's column-by-column visiting order;
  - the three passes per cell;
  - the final division by the running maximum, followed by the smoothing filter.
- **Tile combinators as values** (`TileCells`): the blend weights, the bilinear
  height, merge's tallest-wins pick, mutate's nearest-weighted-corner pick, and
  stitch's mirrored margin with its squared falloff.
- **The tile** (`TerrainTile.Terrain`): a class with `data` and `noiseData` arrays and a
  sparse `surfaceData` colour map. Its methods run the source's loops in place and are
  proved equal to the value-level definitions:
  - the constructor with `initializeTerrain`;
  - `createNoiseData`;
  - `applyEnvironment` over `graphXY`;
  - `interpolate`, `merge`, `mutate`, `stitch` and `create`;
  - `cloneOptions`.

The platform and external libraries are fields of a `Host` value, left uninterpreted:
`Math.pow` with a table exponent, sine, cosine, π, Perlin noise, the gradient angle,
`MathHelper.lerpColor`, the kalmanjs filter step, and the default noise generator.
Stated bounds follow from the clamps applied after these functions. `TestTerrain.New`
takes `striped` explicitly; the constructor's default is `false`.

A constant-noise tile is sometimes expected to become a plateau at mid height. The code
does not do that. Every sample equals the maximum, so every normalised noise value is
exactly 1.0. Every biome's layer bands are half-open and end at 1, so no layer accepts any
cell (`Synthesis.ConstantNoiseGetsNoLayer`). After the layer pass each cell's height is
still 0, and the scan ends with `maxHeight` 0 (`Synthesis.ConstantNoiseIsNotMappable`).
The texture and colour passes still run, at the level 0 / 0, which is NaN. A NaN level
matches the first texture rule and the last colour rule, so a texture callback such as
the Everglades ripple may still change the height. The source's final pass then divides
by a `maxHeight` of 0, giving NaN, or 1 where a texture left a positive height, before the filter runs. Such a
tile is outside `Synthesis.Mappable`, so the model does not follow it past the scan.

## Model

| member | source | states |
|---|---|---|
| RealMath.Clamp01 | src/Terrain.ts:262 | The result lies in [0,1]. It is the input itself inside [0,1], 0 below it and 1 above it. |
| RealMath.Lerp | src/Terrain.ts:422-426 | Weight 0 gives the first end and weight 1 the second. Equal ends give that value. A weight in [0,1] keeps the result between the two ends. |
| RealMath.Square | src/Terrain.ts:420 | A square is never negative, and for t in [0,1] it is at most t. |
| Callbacks.ApplyTexture | src/Environments/Environment.ts:12-20 | Per texture callback: identity returns the stored height; the floor-to-5 terrace lies within 5 below it; the Test stripe keeps a non-negative height between 0.95·h and h; the wave never lowers it. |
| Callbacks.ApplyColor | src/Environments/Environment.ts:2-10 | A constant colour callback returns its triplet. The slope callback returns one of its three triplets. |
| TerrainRules.NormalizedHeight | src/Terrain.ts:234 | NaN exactly when both the height and the running maximum are 0. Otherwise the level lies in [0,1]: h/max for heights up to a positive max, 1 at or above it. |
| TerrainRules.Intensity | src/Terrain.ts:217-218 | For noise inside the band, the intensity lies in [0,1). It is 0 at the band's minimum, and it is the noise's offset from the minimum as a fraction of the band width. |
| TerrainRules.IntensityPow | src/Terrain.ts:219 | The powered, scaled intensity is clamped into [0,1] whatever Math.pow returns. |
| TerrainRules.GeneratedHeight | src/Terrain.ts:220 | The candidate height lies between the budget and the budget plus the layer's mapHeight. |
| TerrainRules.Share | src/Terrain.ts:220 | An intensity in [0,1] claims between 0 and all of a non-negative mapHeight. |
| TerrainRules.LayerPassFrom | src/Terrain.ts:207-229 | An accepted height is never below the stored height. When no remaining band contains the noise, nothing is accepted. |
| TerrainRules.FirstLayerFrom | src/Terrain.ts:209-212 | The index found is the first whose half-open band contains the noise. None is found exactly when no band contains it. |
| TerrainRules.BudgetMonotone | src/Terrain.ts:213-226 | With non-negative mapHeights, budgets are non-negative and grow as more layers are passed. |
| TerrainRules.LayerPassOnZeroedCell | src/Terrain.ts:206-228 | On a zeroed cell, the "stored height is higher" skip never fires. The first band containing the noise is accepted at the budget before it plus its clamped share. The budget after includes its mapHeight. With no containing band, nothing is accepted. |
| TerrainRules.AcceptedWithinBudget | src/Terrain.ts:206-228 | On a zeroed cell, a layer is accepted exactly when some band contains the noise. Its height lies between the budget before and after it, and that budget is at most the sum of all mapHeights. |
| TerrainRules.AcceptedBudgetBound | src/Terrain.ts:213-227 | Whatever the stored height, the budget that raises maxHeight is at most the starting budget plus every remaining mapHeight. |
| TerrainRules.NoiseOneMatchesNoLayer | src/Terrain.ts:209-212 | With every band closed below 1, noise exactly 1.0 matches no layer, and the stored height stays. |
| TerrainRules.FirstTextureFrom | src/Terrain.ts:232-244 | The rule found is the first whose half-open band contains the level. None means no rule matches. A NaN level matches the first rule. |
| TerrainRules.LastColor | src/Terrain.ts:247-258 | The rule found is the last whose inclusive band contains the level, so its colour survives the writes in declared order. None means no rule matches. A NaN level takes the last rule. |
| TerrainRules.TiledLayersMatchOnce | src/Terrain.ts:209-212 | When a table's layer bands tile [0,1), every noise value below 1 lies in exactly one band, and the layer pass picks it. |
| TerrainRules.TiledTexturesMatchOnce | src/Terrain.ts:235-240 | When texture bands tile [0,1), every finite level below 1 matches exactly one rule. |
| TerrainRules.TiledColorsCover | src/Terrain.ts:250-255 | When inclusive colour bands tile [0,1], every level in [0,1] gets a colour. |
| TerrainRules.TiledColorsBoundaryGoesLater | src/Terrain.ts:247-258 | At a boundary shared by two neighbouring colour bands, both match, and the later rule's colour is kept. |
| Synthesis.RawNoise | src/Terrain.ts:180-186 | The zeroed noise buffer receives, at index i, the generator's sample at (offsetX + x·strideX, offsetZ + y·strideZ), where x = i % width and y = i / width. |
| Synthesis.NoiseMax | src/Terrain.ts:181-188 | noiseHeightMax is non-negative, bounds every sample, and when positive is one of the samples. |
| Synthesis.NormalizeBy | src/Terrain.ts:190-192 | Every normalised value lies in [0,1]. A value in [0,m] becomes v/m, one at or above m becomes 1, and one at or below 0 becomes 0. |
| Synthesis.NoisiestCellGetsNoLayer | src/Terrain.ts:190-212 | Some cell normalises to exactly 1, and any such cell receives no layer. |
| Synthesis.ConstantNoiseGetsNoLayer | src/Terrain.ts:181-212 | Constant positive noise has that constant as its maximum, so no cell of the tile receives a layer. |
| Synthesis.ScanWithoutLayers | src/Terrain.ts:206-229 | When every noise value is 1 and every band is closed below 1, the scan from any cell on leaves maxHeight as it was. |
| Synthesis.CellWithoutLayer | src/Terrain.ts:206-229 | Visiting one cell with noise 1, and then the rest of the scan, leaves maxHeight as it was. |
| Synthesis.ConstantNoiseIsNotMappable | src/Terrain.ts:175-262 | A generator with one positive value everywhere has that value as its maximum and normalises to 1 in every cell. The scan then ends with maxHeight 0, so the final pass would divide by 0 and the tile is not Mappable. |
| Synthesis.LayerStep | src/Terrain.ts:206-228 | Only cell j changes. Unmatched noise leaves the state unchanged. An accepted layer stores its height and raises maxHeight to the budget after it. |
| Synthesis.TextureStep | src/Terrain.ts:231-244 | Only cell j changes. Its height is replaced by the callback of the first texture whose band contains the normalised height, or kept when none does. |
| Synthesis.ColorStep | src/Terrain.ts:246-258 | Only cell j's colour changes, and only if some rule matches. It then holds the last matching rule's colour. With no match, no entry is added. |
| Synthesis.CellStep | src/Terrain.ts:205-259 | One cell's three passes touch only that cell's height and colour. maxHeight never falls and stays within the total budget. |
| Synthesis.ScanFrom | src/Terrain.ts:397-410 | The scan keeps the buffer length. maxHeight never falls and never exceeds the total budget. Colours are added only for tile cells. |
| Synthesis.FreshState | src/Terrain.ts:196-197 | A fresh scan starts with an all-zero height buffer, no colours and maxHeight 0. |
| Synthesis.ScanGrid | src/Terrain.ts:204-259 | The full scan's final maxHeight is non-negative and at most the sum of the mapHeights. Colours exist only for cells of the tile. |
| Synthesis.ScanReadsZeroes | src/Terrain.ts:221-224 | Every cell graphXY reaches still holds 0. So the scan equals one whose layer pass assumes a stored height of 0: the skip never fires. |
| Synthesis.CellReadsZero | src/Terrain.ts:221-224 | The cell graphXY visits next still holds 0, and so does every cell after it once this one is written. |
| Synthesis.ScanGridOnZeroes | src/Terrain.ts:196-259 | On a fresh tile, every cell is reached while still zero. |
| Synthesis.SmoothPrefix | src/Terrain.ts:261-264 | The filter runs in flat index order: appending inputs never changes earlier outputs. |
| Synthesis.EnvironmentSurface | src/Terrain.ts:195-266 | applyEnvironment yields one height per cell and colours only for cells of the tile. |
| TerrainTile.SampleNoise | src/Terrain.ts:180-188 | The first noise loop fills a fresh buffer with RawNoise and returns noiseHeightMax = NoiseMax. |
| TerrainTile.NormalizeNoise | src/Terrain.ts:190-192 | The second noise loop turns the buffer into its normalisation by noiseHeightMax. |
| TerrainTile.CallTexture | src/Terrain.ts:242 | Invoking a texture callback, including the ripple's two-octave loop, returns what the callback tag means. |
| TerrainTile.VisitedStep | src/Terrain.ts:400-407 | The cell graphXY reaches is never already inspected. Afterwards, the inspected set grows by exactly that cell. |
| TerrainTile.VisitedNextColumn | src/Terrain.ts:399-400 | Finishing column x leaves the same cells inspected as starting column x + 1. |
| TerrainTile.MutatedSurface | src/Terrain.ts:457-490 | mutate's heights are interpolate's bilinear heights. |
| TerrainTile.MutateOfBlankTiles | src/Terrain.ts:457-490 | mutate of four tiles with zero heights and no colours is again zero heights and no colours. |
| TerrainTile.Terrain.constructor | src/Terrain.ts:76-123 | The options become the tile's geometry, environment and generator. With an environment and mapping, the tile holds applyEnvironment's surface. When mapping is skipped, it holds a zeroed buffer and no colours. Without an environment, its buffers stay empty. |
| TerrainTile.Terrain.CloneOptions | src/Terrain.ts:558-570 | The options copy geometry and environment. They include the generator only when asked. |
| TerrainTile.Terrain.CreateNoiseData | src/Terrain.ts:175-193 | The default generator is installed if none was given. noiseData becomes the normalised samples. Nothing else changes. |
| TerrainTile.Terrain.FinalizeHeights | src/Terrain.ts:261-264 | Each height is divided by maxHeight, clamped to [0,1], and passed through the filter in flat index order, which carries its state along. |
| TerrainTile.Terrain.RunLayers | src/Terrain.ts:206-229 | The layer loop leaves the tile and maxHeight as LayerStep does. |
| TerrainTile.Terrain.RunTextures | src/Terrain.ts:231-244 | The texture loop leaves the heights as TextureStep does. |
| TerrainTile.Terrain.RunColors | src/Terrain.ts:246-258 | The colour loop, writing for every match, leaves the colours as ColorStep (last match) does. |
| TerrainTile.Terrain.ProcessCell | src/Terrain.ts:205-259 | applyEnvironment's per-cell callback equals CellStep. |
| TerrainTile.Terrain.GraphCell | src/Terrain.ts:400-408 | One inner iteration of graphXY runs the callback on a cell not yet inspected, marks it, and advances the scan by one cell. |
| TerrainTile.Terrain.GraphColumn | src/Terrain.ts:400-409 | graphXY's inner loop runs column x top to bottom and leaves the scan at the top of column x + 1. |
| TerrainTile.Terrain.GraphXY | src/Terrain.ts:397-410 | graphXY with applyEnvironment's callback leaves the heights, colours and maxHeight of ScanFrom. |
| TerrainTile.Terrain.ApplyEnvironment | src/Terrain.ts:195-266 | The tile's heights and colours become EnvironmentSurface: fresh buffers, normalised noise, the scan, then the final pass. |
| TerrainTile.Terrain.Blank | src/Terrain.ts:413-414 | The combinators start from a fresh tile with a's geometry, environment and generator, a zeroed height buffer and no colours. |
| TerrainTile.Terrain.FillInterpolated | src/Terrain.ts:415-432 | interpolate's loop leaves BlendHeights and BlendColors in the new tile. |
| TerrainTile.Terrain.FillMerged | src/Terrain.ts:440-452 | merge's loop leaves each cell with its merge pick's height and colour. |
| TerrainTile.Terrain.FillMutated | src/Terrain.ts:460-487 | mutate's loop leaves each cell with its mutate pick's height and colour. |
| TerrainTile.Terrain.Interpolate | src/Terrain.ts:412-435 | The result is a new tile with a's options. Its heights are the bilinear blend of the four tiles, and its colours the colour-lerp of theirs. |
| TerrainTile.Terrain.Merge | src/Terrain.ts:437-455 | The result is a new tile with a's options. Each cell takes the tallest height and the colour of the first of a, b, c, d that has it. |
| TerrainTile.Terrain.Mutate | src/Terrain.ts:457-490 | The result is a new tile with a's options. Each cell takes the bilinear height and the colour of the first corner whose weighted height is nearest it. |
| TerrainTile.Terrain.Stitch | src/Terrain.ts:492-533 | Source's heights and colours become StitchHeights and StitchColors of its original contents and target's. Only source's buffers are written, even when target is source. |
| TerrainTile.Terrain.StitchLine | src/Terrain.ts:497-510 | One row (Top) or column (Left) k of the margin is rewritten, in stitch's order. |
| TerrainTile.Terrain.StitchCell | src/Terrain.ts:500-509 | One margin cell is lerped towards its mirror with the line's falloff weight. The values it reads are still the originals. |
| TerrainTile.Terrain.Create | src/Terrain.ts:535-544 | A list of any length but 4 fails with the source's message before any tile is built. Otherwise the result is a new tile with the options' geometry and the first environment. With mapping it holds mutate of the four mapped surfaces. With the caller's skipInitialEnvironmentMapping set, the four tiles are blank, so their mutate is zero heights and no colours, and the generator is the caller's. |
| TerrainTile.Terrain.NewTile | src/Terrain.ts:539-542 | One of create's tiles: the caller's options with one environment. It holds that environment's mapped surface, or, with mapping skipped, zero heights and no colours and the caller's generator. |
| TileCells.EaseWeight | src/Terrain.ts:418-421 | A blend weight lies in [0,1) and is 0 at the first column or row. |
| TileCells.EaseWeightMonotone | src/Terrain.ts:418-421 | The weight never decreases along an axis. |
| TileCells.HorizontalWeight | src/Terrain.ts:416-420 | The horizontal weight of a cell lies in [0,1). |
| TileCells.VerticalWeight | src/Terrain.ts:417-421 | The vertical weight of a cell lies in [0,1). |
| TileCells.Bilinear | src/Terrain.ts:422-426 | With weights in [0,1], the height lies between the smallest and largest corner. Equal corners give that height, and zero weights give corner a. |
| TileCells.MergeCell | src/Terrain.ts:441-451 | The height is at least each of the four and equals one of them. The chosen corner is the first, in order a, b, c, d, whose height equals it. |
| TileCells.MutateCell | src/Terrain.ts:467-486 | The height is the bilinear one. The chosen corner minimises the distance between the height and the corner's weighted height, and it is the first to do so in order a, b, c, d. |
| TileCells.MergeCellOfIdentical | src/Terrain.ts:441-451 | Four equal heights merge to that height, with corner a's colour. |
| TileCells.MutateCellOfIdentical | src/Terrain.ts:467-486 | Four equal heights mutate to that height, whatever the weights, and the copied colour is the common one. |
| TileCells.BlendHeights | src/Terrain.ts:415-426 | Every blended height lies between the four tiles' smallest and largest height at that cell. Four copies of one tile blend to that tile. Cell 0 takes a's height. |
| TileCells.BlendColors | src/Terrain.ts:427-431 | interpolate gives every cell of the tile a colour, and no other key. |
| TileCells.PickedColors | src/Terrain.ts:443-451 | Each cell holds the picked corner's colour, and nothing when that corner has none. No key lies outside the tile. |
| TileCells.MutateHeightsAreBlended | src/Terrain.ts:467-471 | mutate's heights equal interpolate's, cell for cell. |
| TileCells.MergeOfIdenticalTiles | src/Terrain.ts:437-455 | Merging four copies of a tile gives back its heights and its colours. |
| TileCells.MutateOfIdenticalTiles | src/Terrain.ts:457-490 | Mutating four copies of a tile gives back its heights and its colours. |
| TileCells.MarginIsTruncatedTwentieth | src/Terrain.ts:495 | The margin n / 20 is the int32 truncation of n · 0.05 that the source takes, for a non-negative side length. |
| TileCells.MarginStep | src/Terrain.ts:496-498 | A line's step into the margin lies in [0,1]: 0 on the edge line and 1 on the last margin line. |
| TileCells.StitchWeight | src/Terrain.ts:496-499 | The falloff lies in [0,1]. It is 1 on the edge line, so the cell becomes the target's value, and 0 on the last margin line, so the cell keeps its own. |
| TileCells.StitchWeightDecreasing | src/Terrain.ts:496-499 | The falloff never increases from the edge inwards. |
| TileCells.MirrorRow | src/Terrain.ts:502 | The Top mirror of a cell is in the same column, in row depth - 1 - y, inside the tile. |
| TileCells.MirrorColumn | src/Terrain.ts:521 | The Left mirror of a cell is in the same row, in column width - 1 - x, inside the tile. |
| TileCells.MirrorCell | src/Terrain.ts:501-521 | The mirror of a cell is (x, depth - 1 - y) for Top and (width - 1 - x, y) for Left, and it is inside the tile. |
| TileCells.MirrorOutsideMargin | src/Terrain.ts:495-504 | A margin cell's mirror lies outside the margin, so stitching a tile with itself reads only cells it does not write. |
| TileCells.StitchHeights | src/Terrain.ts:492-533 | Cells outside the margin keep their height. A margin cell lies between its own height and its mirror's. The edge line takes the mirror's height, and the last margin line keeps its own. |
| TileCells.StitchColors | src/Terrain.ts:505-527 | Every margin cell gets the colour-lerp of its own and its mirror's colour with the falloff weight. All other entries are kept, and no other keys are added. |
| TileCells.StitchedStep | src/Terrain.ts:497-509 | Stitch's next cell lies in the margin at the line's distance. It has not been rewritten yet, and afterwards the rewritten set grows by exactly that cell. |
| TileCells.StitchedHeightsMatch | src/Terrain.ts:497-510 | After any prefix of stitch's row/column order, the heights are the originals, with exactly the cells visited so far rewritten. |
| TileCells.StitchedColorsMatch | src/Terrain.ts:497-510 | After any prefix of stitch's order, every cell's colour is the original, or the stitched colour for exactly the cells visited so far. |
| TileCells.StitchedMatches | src/Terrain.ts:497-531 | Stitch's order rewrites exactly the visited cells, in both heights and colours. |
| TileCells.StitchCellUntouched | src/Terrain.ts:503-506 | The cell stitch is about to write and its mirror still hold their original heights and colours. The cell's weight is its line's falloff. |
| TileCells.StitchedComplete | src/Terrain.ts:492-533 | After the last margin line, stitch's order has produced StitchHeights and StitchColors. |
| Bluffs.LayerBandsPartition | src/Environments/Bluffs.ts:52-81 | The four layer bands tile [0,1): every noise value below 1 lies in exactly one of them. |
| Bluffs.BudgetTotal | src/Environments/Bluffs.ts:52-81 | The mapHeights are non-negative and sum to 68. |
| Bluffs.FirstBandFlatTop | src/Environments/Bluffs.ts:53-59 | Scale 2 saturates halfway up the first band: noise in [0.125, 0.25) lifts a zeroed cell to exactly 8. |
| Bluffs.SecondBandFlatTop | src/Environments/Bluffs.ts:60-66 | Noise in [0.375, 0.5) lifts a zeroed cell to exactly 16. |
| Bluffs.Terrace | src/Environments/Bluffs.ts:39-41 | floor(h/5)·5 is a multiple of 5, at most h and more than h - 5. |
| Bluffs.TerraceIdempotent | src/Environments/Bluffs.ts:39-41 | Terracing a terrace changes nothing. |
| Bluffs.TextureBands | src/Environments/Bluffs.ts:30-50 | The three texture bands partition [0,1). Levels in [0.3, 0.8) are terraced, and the rest keep their height via the identity rules. |
| Bluffs.ColorBands | src/Environments/Bluffs.ts:12-28 | The colour bands cover [0,1]. At 0.15 grey wins and at 0.95 green wins. |
| DesertCanyons.WaterLevel | src/Environments/DesertCanyon.ts:10 | The water level is 10. |
| DesertCanyons.LayerBandsPartition | src/Environments/DesertCanyon.ts:74-138 | The nine layer bands tile [0,1): every noise value below 1 lies in exactly one. |
| DesertCanyons.BudgetTotal | src/Environments/DesertCanyon.ts:74-138 | The mapHeights are non-negative and sum to 50. |
| DesertCanyons.HeightsWithinBudget | src/Environments/DesertCanyon.ts:74-138 | No accepted height on a zeroed cell is negative or exceeds 50. |
| DesertCanyons.ColorBandsCover | src/Environments/DesertCanyon.ts:13-64 | The ten inclusive colour bands cover [0,1]. |
| DesertCanyons.SharedBoundaryGoesToLaterRule | src/Environments/DesertCanyon.ts:13-23 | At 0.18 both neighbours match, and the later one, sand [254,243,223], wins. |
| DesertCanyons.ColorsAreByteTriplets | src/Environments/DesertCanyon.ts:13-64 | Every colour callback is a constant triplet with channels in 0..255. |
| DesertCanyons.TextureIsIdentity | src/Environments/DesertCanyon.ts:66-72 | The single texture rule covers [0,1) with the identity callback. |
| IcePlains.LayerBandsPartition | src/Environments/IcePlains.ts:38-53 | The two layer bands tile [0,1). |
| IcePlains.BudgetTotal | src/Environments/IcePlains.ts:38-53 | The mapHeights are non-negative and sum to 40. |
| IcePlains.LowGroundBelowEight | src/Environments/IcePlains.ts:39-45 | Noise below 0.5 lifts a zeroed cell to a height in [0, 8), with budget 8. |
| IcePlains.HighGroundDamped | src/Environments/IcePlains.ts:46-52 | Noise in [0.5, 1) lifts a zeroed cell to a height in [8, 16], while the budget (and so maxHeight) reaches 40. |
| IcePlains.ColorBands | src/Environments/IcePlains.ts:12-28 | The colour bands cover [0,1]. Boundary 0.15 gets [180,207,250] and 0.23 gets [255,255,255]. |
| IcePlains.TextureIsIdentity | src/Environments/IcePlains.ts:30-36 | The single texture rule covers [0,1) with the identity callback. |
| MountainousEverglades.LayerBandsPartition | src/Environments/MountainousEverglades.ts:88-108 | The three layer bands tile [0,1). |
| MountainousEverglades.BudgetTotal | src/Environments/MountainousEverglades.ts:88-108 | The mapHeights are non-negative and sum to 61. |
| MountainousEverglades.MiddleLayerCapped | src/Environments/MountainousEverglades.ts:95-101 | Scale 0.9 caps the middle layer: noise in [0.15, 0.5) lifts a zeroed cell to between 5 and 12.2, with budget 13. |
| MountainousEverglades.TextureBands | src/Environments/MountainousEverglades.ts:61-86 | Levels below 0.15 ripple and levels from 0.3 wave. Levels in [0.15, 0.3) match no texture and keep their height. |
| MountainousEverglades.RippleStep | src/Environments/MountainousEverglades.ts:69-74 | One octave multiplies the divisor by 6.5. The new value is at most the original height minus the octave's noise sample. |
| MountainousEverglades.RippleTexture | src/Environments/MountainousEverglades.ts:64-78 | The ripple callback's loop returns the two-octave ripple value, or the unrippled one when z is at most 0.5. |
| MountainousEverglades.CalmRippleLiftsByHalf | src/Environments/MountainousEverglades.ts:64-78 | With z at most 0.5 and cos 0 = 1, the ripple returns exactly the height plus 0.5. |
| MountainousEverglades.RippleBounds | src/Environments/MountainousEverglades.ts:64-78 | With bounded cosine, a calm ripple stays within 0.5 of the height. An active one is at most the height minus the second octave's sample plus 0.5. |
| MountainousEverglades.WaveValue | src/Environments/MountainousEverglades.ts:83-85 | The wave texture never lowers a cell. |
| MountainousEverglades.WaveLiftAtMostTwo | src/Environments/MountainousEverglades.ts:83-85 | With bounded sine and cosine, the wave lifts a cell by at most 2. |
| MountainousEverglades.ColorBands | src/Environments/MountainousEverglades.ts:15-58 | Rules are declared high to low, so the lower band wins at each boundary: up to 0.1 brown, up to 0.15 sand, up to 0.2 green, above that the slope colour. |
| MountainousEverglades.SlopeColor | src/Environments/MountainousEverglades.ts:19-41 | The slope colour is always one of [80,69,67], [0,128,0] and [65,71,74]. Flat neighbourhoods (a zero gradient) get [65,71,74]. |
| MountainousEverglades.SlopeTestsExclusive | src/Environments/MountainousEverglades.ts:30-40 | The two direction tests never both hold, so their order does not matter. |
| RockyOceans.SteepLayer | src/Environments/RockyOceans.ts:28-36 | Noise n in [0,1) lifts a zeroed cell to 64·min(1, 2n⁴). Noise 1 leaves it at 0. |
| RockyOceans.EveryLevelIsGrey | src/Environments/RockyOceans.ts:12-18 | Every level, NaN included, takes the single grey rule. |
| RockyOceans.TextureIsIdentity | src/Environments/RockyOceans.ts:20-26 | The single texture rule covers [0,1) with the identity callback. |
| TestTerrain.StripeValue | src/Environments/Test.ts:20-21 | Unstriped tiles scale every height by 0.95. Striped tiles keep it where floor(j/4) is even and scale it by 0.95 where it is odd. A non-negative height never grows. |
| TestTerrain.StripePeriod | src/Environments/Test.ts:20-21 | Stripes are four cells wide and repeat every eight cells; neighbouring striped stripes differ. |
| TestTerrain.LinearLayer | src/Environments/Test.ts:31-39 | With power 1, noise n in [0,1) lifts a zeroed cell to 64·n. Noise 1 leaves it at 0. |
| TestTerrain.EveryLevelGetsTheColor | src/Environments/Test.ts:12-18 | Every level, NaN included, takes the constructor's colour. |

## Left out

- Mesh, lighting and texture baking (`applyMesh`, `disposeMesh`, `dispose`, `generateTerrainTexture`, `generateBakedLightingTexture`): THREE.js geometry and DOM canvas work with no bearing on the buffers.
- `TerrainDefaultNoiseGenerator`: its Perlin noise and random seed are outside the model. The default generator is the host's `defaultNoise`, and `ImprovedNoise` is not part of this model.
- Float32 storage: heights are exact reals, so Float32 rounding of `data` and `noiseData` is not modelled.
- `Math.pow` with a table exponent, sine, cosine, π, `atan2`/`sqrt` of the gradient, Perlin noise, `MathHelper.lerpColor` and the kalmanjs filter are uninterpreted host functions. `Math.pow` with the literal exponent 2 (blend weights, stitch falloff, the wave texture) is exact squaring.
- `getDefaultOptions`, `sunDirection`, the option defaulting (`options.width || default`) and `size` computed from the raw options: the model takes options after defaulting, with positive width and depth.
- TerrainTile.Terrain.constructor: a tile without an environment leaves `data` and `surfaceData` unset in the source; the model gives it an empty height buffer and no colours.
- TerrainTile.Terrain.CreateNoiseData: requires a positive largest sample; with all samples 0 the source divides 0 by 0 and stores NaN noise.
- TerrainTile.Terrain.ApplyEnvironment: requires a positive final `maxHeight` (Synthesis.Mappable); with 0 the source's final pass stores NaN. Inside the scan, the 0/0 case is modelled (`Level.NaN`).
- TerrainTile.Terrain.FinalizeHeights: the heights after the filter are the host filter's outputs; nothing is claimed about their range.
- TerrainTile.Terrain.Stitch: requires a margin other than 1; with margin 1 the source divides by zero and writes NaN into the edge line. It also requires target to have source's size; the source reads a target of any size with source's geometry, and a smaller target yields `undefined` and so NaN heights. Top and Left are one loop nest parameterised by the side.
- TerrainTile.Terrain.Interpolate, TerrainTile.Terrain.Merge, TerrainTile.Terrain.Mutate: require the four tiles to have a's size; differently sized tiles make the source read `undefined`. They also require a to have an environment. Without one, the new tile cloned from a gets no `data` buffer, and the source throws a TypeError at its first write to it.
- TerrainTile.Terrain.Create: the thrown string is a `Failure` result. When the options carry no generator, each of the four source tiles makes its own default generator with its own random seed; the model gives all four the one host generator.
- TileCells.MarginIsTruncatedTwentieth: `| 0` is int32 truncation; side lengths beyond 2^31 / 0.05 are not modelled.
- TestTerrain.StripeValue: `(j * 0.25) | 0` is j / 4 only for indices within int32 range.
- MountainousEverglades.SlopeColor: `len = sqrt(nx² + ny²)` and the division by it are folded into the host's gradient angle. A zero gradient gives NaN in the source, which fails both direction tests, so the model returns the default colour for it.
- The random `z` of MountainousEverglades is a parameter of `MountainousEverglades.Instance(z)`.
