/** The environment scan of src/Terrain.ts as functions on values: per-tile noise
    normalisation (createNoiseData), the three passes applied to each cell
    (applyEnvironment's callback), the column-by-column visiting order of graphXY,
    and the final division by the running maximum followed by the smoothing filter.
    Class TerrainTile.Terrain runs the same steps in place and is proved equal to
    these functions. */
module Synthesis {
  import opened Wrappers
  import opened RealMath
  import opened Environments
  import opened TerrainRules
  import opened Callbacks
  import opened TileCells

  /** A tile's geometry: `width` x `depth` cells, and where its noise is sampled. */
  datatype Grid = Grid(width: nat, depth: nat, offsetX: real, offsetZ: real, strideX: real, strideZ: real)
  {
    function Size(): nat { width * depth }
  }

  // ---------------------------------------------------------------- noise

  /** The noise generator's sample for flat index i, at
      (offsetX + x * strideX, offsetZ + y * strideZ) with x = i % width, y = i / width. */
  function Sample(g: Grid, generate: (real, real) -> real, i: nat): real
    requires g.width > 0
  {
    generate(g.offsetX + (i % g.width) as real * g.strideX, g.offsetZ + (i / g.width) as real * g.strideZ)
  }

  /** The first noise loop's buffer: the buffer starts zeroed, so each entry is its sample. */
  function RawNoise(g: Grid, generate: (real, real) -> real): (r: seq<real>)
    requires g.width > 0
    ensures |r| == g.Size()
    ensures forall i :: 0 <= i < |r| ==> r[i] == Sample(g, generate, i)
  {
    seq(g.Size(), i requires 0 <= i < g.Size() => Sample(g, generate, i))
  }

  /** `noiseHeightMax`: the running maximum of the samples, starting from 0. */
  function NoiseMax(raw: seq<real>): (r: real)
    ensures r >= 0.0
    ensures forall i :: 0 <= i < |raw| ==> raw[i] <= r
    ensures r > 0.0 ==> exists i :: 0 <= i < |raw| && raw[i] == r
  {
    if |raw| == 0 then 0.0
    else
      var m := NoiseMax(raw[..|raw| - 1]);
      assert forall i :: 0 <= i < |raw| - 1 ==> raw[..|raw| - 1][i] == raw[i];
      Max(raw[|raw| - 1], m)
  }

  /** `Math.min(1, Math.max(0, v / m))` for every entry: the second noise loop with
      m = noiseHeightMax, and the final height pass with m = maxHeight (on reals the
      two clamp orders agree). */
  function NormalizeBy(values: seq<real>, m: real): (r: seq<real>)
    requires m > 0.0
    ensures |r| == |values|
    ensures forall i :: 0 <= i < |r| ==> 0.0 <= r[i] <= 1.0
    ensures forall i :: 0 <= i < |r| && 0.0 <= values[i] <= m ==> r[i] == values[i] / m
    ensures forall i :: 0 <= i < |r| && values[i] >= m ==> r[i] == 1.0
    ensures forall i :: 0 <= i < |r| && values[i] <= 0.0 ==> r[i] == 0.0
  {
    seq(|values|, i requires 0 <= i < |values| => NormalizeOne(values[i], m))
  }

  /** One entry of NormalizeBy: `Math.min(1, Math.max(0, v / m))`. */
  function NormalizeOne(v: real, m: real): (r: real)
    requires m > 0.0
    ensures 0.0 <= r <= 1.0
    ensures 0.0 <= v <= m ==> r == v / m
    ensures v >= m ==> r == 1.0
    ensures v <= 0.0 ==> r == 0.0
  {
    if 0.0 <= v <= m then
      assert v / m <= m / m == 1.0;
      assert 0.0 <= v / m;
      Clamp01(v / m)
    else if v > m then
      assert v / m > 1.0;
      Clamp01(v / m)
    else
      assert v / m < 0.0;
      Clamp01(v / m)
  }

  /** The tile's normalised noise buffer. */
  function Noise(g: Grid, generate: (real, real) -> real): (r: seq<real>)
    requires g.width > 0 && NoiseMax(RawNoise(g, generate)) > 0.0
    ensures |r| == g.Size()
  {
    NormalizeBy(RawNoise(g, generate), NoiseMax(RawNoise(g, generate)))
  }

  /** The noisiest cell of a tile normalises to exactly 1, which no band closed below
      1 contains: that cell receives no layer. */
  lemma NoisiestCellGetsNoLayer(raw: seq<real>, layers: seq<TerrainLayer>, current: real, pow: (real, real) -> real)
    requires NoiseMax(raw) > 0.0
    requires forall i :: 0 <= i < |layers| ==> layers[i].maxThreshold <= 1.0
    ensures exists i :: 0 <= i < |raw| && NormalizeBy(raw, NoiseMax(raw))[i] == 1.0
    ensures forall i :: 0 <= i < |raw| && NormalizeBy(raw, NoiseMax(raw))[i] == 1.0 ==>
      LayerPass(layers, NormalizeBy(raw, NoiseMax(raw))[i], current, pow) == Unmatched
  {
    var m := NoiseMax(raw);
    var i :| 0 <= i < |raw| && raw[i] == m;
    assert NormalizeBy(raw, m)[i] == 1.0;
    NoiseOneMatchesNoLayer(layers, current, pow);
  }

  /** Constant noise: every cell is a noisiest cell, so with bands closed below 1 no
      cell of the tile receives a layer. */
  lemma ConstantNoiseGetsNoLayer(raw: seq<real>, c: real, layers: seq<TerrainLayer>, current: real, pow: (real, real) -> real)
    requires c > 0.0
    requires forall i :: 0 <= i < |raw| ==> raw[i] == c
    requires forall i :: 0 <= i < |layers| ==> layers[i].maxThreshold <= 1.0
    ensures |raw| > 0 ==> NoiseMax(raw) == c
    ensures |raw| > 0 ==> forall i :: 0 <= i < |raw| ==> LayerPass(layers, NormalizeBy(raw, c)[i], current, pow) == Unmatched
  {
    if |raw| > 0 {
      assert raw[0] <= NoiseMax(raw);
      assert NoiseMax(raw) > 0.0;
      var k :| 0 <= k < |raw| && raw[k] == NoiseMax(raw);
      NoiseOneMatchesNoLayer(layers, current, pow);
    }
  }

  // ---------------------------------------------------------------- the three passes of one cell

  /** The mutable state of the scan: heights, the sparse colour buffer and the
      running maximum `maxHeight`. */
  datatype ScanState = ScanState(data: seq<real>, colors: map<nat, Color>, maxHeight: real)

  /** The layer pass of cell j with noise n, on top of the stored height `current`. */
  function LayerStep(layers: seq<TerrainLayer>, n: real, j: nat, current: real, s: ScanState, pow: (real, real) -> real): (r: ScanState)
    requires j < |s.data|
    ensures |r.data| == |s.data| && r.colors == s.colors
    ensures forall k :: 0 <= k < |s.data| && k != j ==> r.data[k] == s.data[k]
    ensures LayerPass(layers, n, current, pow).Unmatched? ==> r == s
    ensures LayerPass(layers, n, current, pow).Accepted? ==>
      r.data[j] == LayerPass(layers, n, current, pow).height &&
      r.maxHeight == Max(s.maxHeight, LayerPass(layers, n, current, pow).budget)
  {
    match LayerPass(layers, n, current, pow)
    case Unmatched => s
    case Accepted(h, b) => ScanState(s.data[j := h], s.colors, Max(s.maxHeight, b))
  }

  /** The texture pass of cell j at (x, y): the first rule whose band contains the
      height normalised by the running maximum replaces the height by its callback. */
  function TextureStep(rules: seq<SurfaceTexture>, j: nat, x: nat, y: nat, s: ScanState, host: Host): (r: ScanState)
    requires j < |s.data| && s.maxHeight >= 0.0
    ensures |r.data| == |s.data| && r.colors == s.colors && r.maxHeight == s.maxHeight
    ensures forall k :: 0 <= k < |s.data| && k != j ==> r.data[k] == s.data[k]
    ensures FirstTextureFrom(rules, 0, NormalizedHeight(s.data[j], s.maxHeight)).None? ==> r == s
    ensures FirstTextureFrom(rules, 0, NormalizedHeight(s.data[j], s.maxHeight)).Some? ==>
      r.data[j] == ApplyTexture(rules[FirstTextureFrom(rules, 0, NormalizedHeight(s.data[j], s.maxHeight)).value].callback,
                                s.data, j, x, y, host)
  {
    match FirstTextureFrom(rules, 0, NormalizedHeight(s.data[j], s.maxHeight))
    case None => s
    case Some(k) => s.(data := s.data[j := ApplyTexture(rules[k].callback, s.data, j, x, y, host)])
  }

  /** The colour pass of cell j: every rule whose inclusive band contains the
      normalised height writes its colour, so the last one's stays; with no matching
      rule the cell gets no entry. */
  function ColorStep(rules: seq<SurfaceColor>, j: nat, width: nat, s: ScanState, host: Host): (r: ScanState)
    requires j < |s.data| && s.maxHeight >= 0.0 && width > 0
    ensures r.data == s.data && r.maxHeight == s.maxHeight
    ensures forall k :: k != j ==> (k in r.colors <==> k in s.colors)
    ensures forall k :: k != j && k in s.colors ==> r.colors[k] == s.colors[k]
    ensures j in r.colors <==> j in s.colors || LastColor(rules, NormalizedHeight(s.data[j], s.maxHeight)).Some?
    ensures LastColor(rules, NormalizedHeight(s.data[j], s.maxHeight)).Some? ==>
      r.colors[j] == ApplyColor(rules[LastColor(rules, NormalizedHeight(s.data[j], s.maxHeight)).value].callback,
                                s.data, j, width, host)
  {
    match LastColor(rules, NormalizedHeight(s.data[j], s.maxHeight))
    case None => s
    case Some(k) => s.(colors := s.colors[j := ApplyColor(rules[k].callback, s.data, j, width, host)])
  }

  /** applyEnvironment's callback for cell j at (x, y): layers, then textures, then
      colours. `current` is the height stored for the cell when it is reached. */
  function CellStep(env: Environment, noise: seq<real>, width: nat, x: nat, y: nat, j: nat, current: real,
                    s: ScanState, host: Host): (r: ScanState)
    requires j < |s.data| == |noise| && s.maxHeight >= 0.0 && width > 0
    ensures |r.data| == |s.data| && r.maxHeight >= s.maxHeight
    ensures forall k :: 0 <= k < |s.data| && k != j ==> r.data[k] == s.data[k]
    ensures forall k :: k != j ==> (k in r.colors <==> k in s.colors)
    ensures forall k :: k != j && k in s.colors ==> r.colors[k] == s.colors[k]
    ensures NonNegativeHeights(env.terrainLayers) ==>
      r.maxHeight <= Max(s.maxHeight, TotalBudget(env.terrainLayers))
  {
    var s1 := LayerStep(env.terrainLayers, noise[j], j, current, s, host.pow);
    var s2 := TextureStep(env.surfaceTextures, j, x, y, s1, host);
    var s3 := ColorStep(env.surfaceColors, j, width, s2, host);
    if NonNegativeHeights(env.terrainLayers) then
      AcceptedBudgetBound(env.terrainLayers, 0, noise[j], current, 0.0, host.pow);
      s3
    else s3
  }

  // ---------------------------------------------------------------- graphXY's visiting order

  /** Cells graphXY has not reached when it is about to visit (x, y): every later
      column, and column x from row y down. */
  predicate Unvisited(width: nat, x: nat, y: nat, k: nat)
    requires width > 0
  {
    k % width > x || (k % width == x && k / width >= y)
  }

  /** graphXY from cell (x, y) on: columns x, x + 1, ..., each from row y (then 0)
      to depth - 1, calling the cell step on x + y * width. With `zeroed` the layer
      pass is handed 0 as the stored height instead of reading it;
      ScanReadsZeroes shows that on a zeroed buffer both agree. */
  function ScanFrom(env: Environment, noise: seq<real>, g: Grid, host: Host, zeroed: bool,
                    x: nat, y: nat, s: ScanState): (r: ScanState)
    requires g.width > 0 && |noise| == |s.data| == g.Size() && s.maxHeight >= 0.0 && y <= g.depth
    ensures |r.data| == |s.data| && r.maxHeight >= s.maxHeight
    ensures forall k :: k in r.colors ==> k in s.colors || k < |s.data|
    ensures NonNegativeHeights(env.terrainLayers) ==>
      r.maxHeight <= Max(s.maxHeight, TotalBudget(env.terrainLayers))
    decreases g.width - x, g.depth - y
  {
    if x >= g.width then s
    else if y == g.depth then ScanFrom(env, noise, g, host, zeroed, x + 1, 0, s)
    else
      var j := x + y * g.width;
      CellIndex(x, y, g.width, g.depth);
      var s' := CellStep(env, noise, g.width, x, y, j, if zeroed then 0.0 else s.data[j], s, host);
      ScanFrom(env, noise, g, host, zeroed, x, y + 1, s')
  }

  /** A zeroed buffer of n heights, no colours, running maximum 0. */
  function FreshState(n: nat): (r: ScanState)
    ensures |r.data| == n && r.colors == map[] && r.maxHeight == 0.0
    ensures forall k :: 0 <= k < n ==> r.data[k] == 0.0
  {
    ScanState(seq(n, k => 0.0), map[], 0.0)
  }

  /** The whole scan of applyEnvironment over a zeroed buffer. */
  function ScanGrid(env: Environment, noise: seq<real>, g: Grid, host: Host): (r: ScanState)
    requires g.width > 0 && |noise| == g.Size()
    ensures |r.data| == g.Size() && r.maxHeight >= 0.0
    ensures forall k :: k in r.colors ==> k < g.Size()
    ensures NonNegativeHeights(env.terrainLayers) ==> r.maxHeight <= TotalBudget(env.terrainLayers)
  {
    var r := ScanFrom(env, noise, g, host, false, 0, 0, FreshState(g.Size()));
    if NonNegativeHeights(env.terrainLayers) then
      BudgetNonNegative(env.terrainLayers, 0, |env.terrainLayers|);
      r
    else r
  }

  /** Every cell graphXY has not yet reached still holds 0, so reading the stored
      height and assuming 0 give the same scan: the `data[j] > generatedHeight` skip
      of the layer pass never fires on the freshly zeroed buffer. */
  lemma ScanReadsZeroes(env: Environment, noise: seq<real>, g: Grid, host: Host, x: nat, y: nat, s: ScanState)
    requires g.width > 0 && |noise| == |s.data| == g.Size() && s.maxHeight >= 0.0 && y <= g.depth
    requires forall k :: 0 <= k < |s.data| && Unvisited(g.width, x, y, k) ==> s.data[k] == 0.0
    ensures ScanFrom(env, noise, g, host, false, x, y, s) == ScanFrom(env, noise, g, host, true, x, y, s)
    decreases g.width - x, g.depth - y, 1
  {
    if x >= g.width {
    } else if y == g.depth {
      ScanReadsZeroes(env, noise, g, host, x + 1, 0, s);
    } else {
      CellReadsZero(env, noise, g, host, x, y, s);
    }
  }

  /** The step of ScanReadsZeroes that visits cell (x, y): the cell still holds 0,
      and every cell after it still does once it is written. */
  lemma CellReadsZero(env: Environment, noise: seq<real>, g: Grid, host: Host, x: nat, y: nat, s: ScanState)
    requires g.width > 0 && |noise| == |s.data| == g.Size() && s.maxHeight >= 0.0
    requires x < g.width && y < g.depth
    requires forall k :: 0 <= k < |s.data| && Unvisited(g.width, x, y, k) ==> s.data[k] == 0.0
    ensures ScanFrom(env, noise, g, host, false, x, y, s) == ScanFrom(env, noise, g, host, true, x, y, s)
    decreases g.width - x, g.depth - y, 0
  {
    var j := x + y * g.width;
    CellIndex(x, y, g.width, g.depth);
    assert Unvisited(g.width, x, y, j);
    var s' := CellStep(env, noise, g.width, x, y, j, 0.0, s, host);
    LaterCellsStillZero(g.width, x, y, j, s.data, s'.data);
    ScanReadsZeroes(env, noise, g, host, x, y + 1, s');
  }

  /** Writing cell j = (x, y) leaves every cell after it as it was: still 0. */
  lemma LaterCellsStillZero(width: nat, x: nat, y: nat, j: nat, before: seq<real>, after: seq<real>)
    requires width > 0 && j == x + y * width && j < |before| == |after|
    requires (j % width, j / width) == (x, y)
    requires forall k :: 0 <= k < |before| && Unvisited(width, x, y, k) ==> before[k] == 0.0
    requires forall k :: 0 <= k < |before| && k != j ==> after[k] == before[k]
    ensures forall k :: 0 <= k < |after| && Unvisited(width, x, y + 1, k) ==> after[k] == 0.0
  {
    forall k | 0 <= k < |after| && Unvisited(width, x, y + 1, k)
      ensures after[k] == 0.0
    {
      assert k != j;
    }
  }

  /** The scan of a fresh tile: every cell is reached while still 0. */
  lemma ScanGridOnZeroes(env: Environment, noise: seq<real>, g: Grid, host: Host)
    requires g.width > 0 && |noise| == g.Size()
    ensures ScanGrid(env, noise, g, host) == ScanFrom(env, noise, g, host, true, 0, 0, FreshState(g.Size()))
  {
    ScanReadsZeroes(env, noise, g, host, 0, 0, FreshState(g.Size()));
  }

  /** Where every noise value is 1 and every band is closed below 1, no cell
      receives a layer, so the scan never raises maxHeight. */
  lemma {:induction false} ScanWithoutLayers(env: Environment, noise: seq<real>, g: Grid, host: Host,
                                             x: nat, y: nat, s: ScanState)
    requires g.width > 0 && |noise| == |s.data| == g.Size() && s.maxHeight >= 0.0 && y <= g.depth
    requires forall i :: 0 <= i < |noise| ==> noise[i] == 1.0
    requires forall i :: 0 <= i < |env.terrainLayers| ==> env.terrainLayers[i].maxThreshold <= 1.0
    ensures ScanFrom(env, noise, g, host, false, x, y, s).maxHeight == s.maxHeight
    decreases g.width - x, g.depth - y, 1
  {
    if x >= g.width {
    } else if y == g.depth {
      ScanWithoutLayers(env, noise, g, host, x + 1, 0, s);
    } else {
      CellWithoutLayer(env, noise, g, host, x, y, s);
    }
  }

  /** The step of ScanWithoutLayers that visits cell (x, y). */
  lemma {:induction false} CellWithoutLayer(env: Environment, noise: seq<real>, g: Grid, host: Host,
                                            x: nat, y: nat, s: ScanState)
    requires g.width > 0 && |noise| == |s.data| == g.Size() && s.maxHeight >= 0.0
    requires x < g.width && y < g.depth
    requires forall i :: 0 <= i < |noise| ==> noise[i] == 1.0
    requires forall i :: 0 <= i < |env.terrainLayers| ==> env.terrainLayers[i].maxThreshold <= 1.0
    ensures ScanFrom(env, noise, g, host, false, x, y, s).maxHeight == s.maxHeight
    decreases g.width - x, g.depth - y, 0
  {
    var j := x + y * g.width;
    CellIndex(x, y, g.width, g.depth);
    NoiseOneMatchesNoLayer(env.terrainLayers, s.data[j], host.pow);
    CellStepWithoutLayer(env, noise, g.width, x, y, j, s.data[j], s, host);
    ScanWithoutLayers(env, noise, g, host, x, y + 1, CellStep(env, noise, g.width, x, y, j, s.data[j], s, host));
  }

  /** A cell that receives no layer leaves maxHeight as it was. */
  lemma CellStepWithoutLayer(env: Environment, noise: seq<real>, width: nat, x: nat, y: nat, j: nat, current: real,
                             s: ScanState, host: Host)
    requires j < |s.data| == |noise| && s.maxHeight >= 0.0 && width > 0
    requires LayerPass(env.terrainLayers, noise[j], current, host.pow) == Unmatched
    ensures CellStep(env, noise, width, x, y, j, current, s, host).maxHeight == s.maxHeight
  {
  }

  /** A generator that returns the same positive value everywhere: every sample is
      the maximum, so the normalised noise is 1 in every cell. With every band closed
      below 1 no layer is accepted, the scan ends with maxHeight 0, and the final
      division would be 0 / 0: such a tile is not Mappable. */
  lemma ConstantNoiseIsNotMappable(env: Environment, g: Grid, generate: (real, real) -> real, host: Host, c: real)
    requires g.width > 0 && g.depth > 0 && c > 0.0
    requires forall u, v :: generate(u, v) == c
    requires forall i :: 0 <= i < |env.terrainLayers| ==> env.terrainLayers[i].maxThreshold <= 1.0
    ensures NoiseMax(RawNoise(g, generate)) == c
    ensures forall i :: 0 <= i < g.Size() ==> Noise(g, generate)[i] == 1.0
    ensures ScanGrid(env, Noise(g, generate), g, host).maxHeight == 0.0
    ensures !Mappable(env, g, generate, host)
  {
    var raw := RawNoise(g, generate);
    assert 0 < g.Size() by { MulAtLeast(g.depth, g.width); }
    assert raw[0] == c;
    assert raw[0] <= NoiseMax(raw);
    var k :| 0 <= k < |raw| && raw[k] == NoiseMax(raw);
    ScanWithoutLayers(env, Noise(g, generate), g, host, 0, 0, FreshState(g.Size()));
  }

  // ---------------------------------------------------------------- final pass

  /** The smoothing filter's outputs and its state after them. */
  datatype Smoothed = Smoothed(state: FilterState, values: seq<real>)

  /** One call `kf.filter(z, 0.5)`. */
  function FilterStep(st: FilterState, z: real, host: Host): (FilterState, real) {
    host.filter(st, z, 0.5)
  }

  /** The filter applied to the values in flat index order, from filter state `start`. */
  function Smooth(values: seq<real>, start: FilterState, host: Host): (r: Smoothed)
    ensures |r.values| == |values|
    decreases |values|
  {
    if |values| == 0 then Smoothed(start, [])
    else
      var prev := Smooth(values[..|values| - 1], start, host);
      var step := FilterStep(prev.state, values[|values| - 1], host);
      Smoothed(step.0, prev.values + [step.1])
  }

  /** The filter is causal: extending the input leaves earlier outputs alone. */
  lemma {:induction false} SmoothPrefix(a: seq<real>, b: seq<real>, start: FilterState, host: Host)
    ensures Smooth(a + b, start, host).values[..|a|] == Smooth(a, start, host).values
    decreases |b|
  {
    if |b| > 0 {
      var b' := b[..|b| - 1];
      assert (a + b)[..|a + b| - 1] == a + b';
      SmoothPrefix(a, b', start, host);
    } else {
      assert a + b == a;
    }
  }

  /** What applyEnvironment leaves in the tile: heights and colours. */
  datatype Surface = Surface(data: seq<real>, colors: map<nat, Color>)

  /** The arithmetic of applyEnvironment is defined: the tile's largest noise sample
      and its final running maximum are positive (a zero maximum divides by zero). */
  predicate Mappable(env: Environment, g: Grid, generate: (real, real) -> real, host: Host) {
    g.width > 0 && NoiseMax(RawNoise(g, generate)) > 0.0 &&
    ScanGrid(env, Noise(g, generate), g, host).maxHeight > 0.0
  }

  /** applyEnvironment: normalise the noise, scan, divide every height by the final
      maximum, clamp, and smooth with a fresh filter. */
  function EnvironmentSurface(env: Environment, g: Grid, generate: (real, real) -> real, host: Host): (r: Surface)
    requires Mappable(env, g, generate, host)
    ensures |r.data| == g.Size()
    ensures forall k :: k in r.colors ==> k < g.Size()
  {
    var scan := ScanGrid(env, Noise(g, generate), g, host);
    Surface(Smooth(NormalizeBy(scan.data, scan.maxHeight), Unset, host).values, scan.colors)
  }
}
