/** The per-cell classification of the height-field synthesizer (src/Terrain.ts,
    applyEnvironment): the layer pass with its height budget, first-match texture
    selection over half-open bands, last-match colour selection over inclusive bands,
    and normalisation against the running maximum. */
module TerrainRules {
  import opened Wrappers
  import opened RealMath
  import opened Environments

  /** `Math.max(0, Math.min(1, h / maxHeight))` for a running maximum that is never
      negative. Division by a zero maximum follows JavaScript: a positive height gives
      +Infinity (clamped to 1), a negative one -Infinity (clamped to 0), zero gives NaN. */
  function NormalizedHeight(h: real, maxHeight: real): (r: Level)
    requires maxHeight >= 0.0
    ensures r.NaN? <==> maxHeight == 0.0 && h == 0.0
    ensures r.Finite? ==> 0.0 <= r.value <= 1.0
    ensures maxHeight > 0.0 && 0.0 <= h <= maxHeight ==> r == Finite(h / maxHeight)
    ensures maxHeight > 0.0 && h >= maxHeight ==> r == Finite(1.0)
  {
    if maxHeight > 0.0 then Finite(Clamp01(h / maxHeight))
    else if h > 0.0 then Finite(1.0)
    else if h < 0.0 then Finite(0.0)
    else NaN
  }

  // ---------------------------------------------------------------- band tests

  /** A layer's half-open noise band: excluded when n < min or n >= max. */
  predicate InLayer(n: real, layer: TerrainLayer) {
    !(n < layer.minThreshold || n >= layer.maxThreshold)
  }

  /** A texture's half-open band of normalised height. Every comparison with NaN is
      false, so a NaN level is never excluded. */
  predicate TextureMatches(l: Level, t: SurfaceTexture) {
    !(l.Finite? && (l.value < t.minThreshold || l.value >= t.maxThreshold))
  }

  /** A colour's inclusive band of normalised height; NaN is never excluded either. */
  predicate ColorMatches(l: Level, c: SurfaceColor) {
    !(l.Finite? && (l.value < c.minThreshold || l.value > c.maxThreshold))
  }

  // ---------------------------------------------------------------- layer pass

  /** `Math.min(1, Math.max(0, n - min) / (max - min))` for noise inside the band. */
  function Intensity(n: real, layer: TerrainLayer): (r: real)
    requires InLayer(n, layer)
    ensures 0.0 <= r < 1.0
    ensures n == layer.minThreshold ==> r == 0.0
    ensures r * (layer.maxThreshold - layer.minThreshold) == n - layer.minThreshold
  {
    Min(1.0, Max(0.0, n - layer.minThreshold) / (layer.maxThreshold - layer.minThreshold))
  }

  /** `Math.min(1, Math.max(0, Math.pow(intensity, power) * scale))`. */
  function IntensityPow(n: real, layer: TerrainLayer, pow: (real, real) -> real): (r: real)
    requires InLayer(n, layer)
    ensures 0.0 <= r <= 1.0
  {
    Clamp01(pow(Intensity(n, layer), layer.mapPower) * layer.mapScale)
  }

  /** The candidate height a matching layer proposes on top of the budget `prev`. */
  function GeneratedHeight(n: real, layer: TerrainLayer, prev: real, pow: (real, real) -> real): (r: real)
    requires InLayer(n, layer)
    ensures layer.mapHeight >= 0.0 ==> prev <= r <= prev + layer.mapHeight
  {
    prev + Share(IntensityPow(n, layer, pow), layer.mapHeight)
  }

  /** The part `t * h` of a budget h that an intensity t in [0,1] claims. */
  function Share(t: real, h: real): (r: real)
    requires 0.0 <= t <= 1.0
    ensures h >= 0.0 ==> 0.0 <= r <= h
  {
    ScaledBetween(t, h);
    t * h
  }

  /** An intensity capped at c claims at most the fraction c of the budget... */
  lemma ShareAtMost(t: real, c: real, h: real)
    requires 0.0 <= t <= c <= 1.0 && 0.0 <= h
    ensures Share(t, h) <= c * h
  {
  }

  /** ... and an intensity below 1 claims strictly less than a positive budget. */
  lemma ShareBelow(t: real, h: real)
    requires 0.0 <= t < 1.0 && 0.0 < h
    ensures Share(t, h) < h
  {
  }

  /** What the layer loop leaves behind for one cell: no layer accepted (the stored
      height stays), or an accepted height together with the budget after that layer. */
  datatype LayerOutcome = Unmatched | Accepted(height: real, budget: real)

  predicate NoLayerFrom(layers: seq<TerrainLayer>, k: nat, n: real) {
    forall i :: k <= i < |layers| ==> !InLayer(n, layers[i])
  }

  /** The layer loop from layer k on, with budget `prev`, for noise n and a stored
      height `current`: a layer whose band excludes n, or whose candidate is below the
      stored height, adds its mapHeight to the budget; the first other one is accepted. */
  function LayerPassFrom(layers: seq<TerrainLayer>, k: nat, n: real, current: real, prev: real,
                         pow: (real, real) -> real): (r: LayerOutcome)
    requires k <= |layers|
    ensures r.Accepted? ==> current <= r.height
    ensures NoLayerFrom(layers, k, n) ==> r == Unmatched
    decreases |layers| - k
  {
    if k == |layers| then Unmatched
    else
      var layer := layers[k];
      if !InLayer(n, layer) then
        LayerPassFrom(layers, k + 1, n, current, prev + layer.mapHeight, pow)
      else
        var generated := GeneratedHeight(n, layer, prev, pow);
        if current > generated then
          LayerPassFrom(layers, k + 1, n, current, prev + layer.mapHeight, pow)
        else
          Accepted(generated, prev + layer.mapHeight)
  }

  /** The index of the first layer, from k on, whose band contains n. */
  function FirstLayerFrom(layers: seq<TerrainLayer>, k: nat, n: real): (r: Option<nat>)
    requires k <= |layers|
    ensures r.Some? ==> k <= r.value < |layers| && InLayer(n, layers[r.value])
    ensures r.Some? ==> forall i :: k <= i < r.value ==> !InLayer(n, layers[i])
    ensures r.None? <==> NoLayerFrom(layers, k, n)
    decreases |layers| - k
  {
    if k == |layers| then None
    else if InLayer(n, layers[k]) then Some(k)
    else FirstLayerFrom(layers, k + 1, n)
  }

  /** The sum of mapHeight over layers k .. i-1. */
  function Budget(layers: seq<TerrainLayer>, k: nat, i: nat): real
    requires k <= i <= |layers|
    decreases i - k
  {
    if k == i then 0.0 else layers[k].mapHeight + Budget(layers, k + 1, i)
  }

  function TotalBudget(layers: seq<TerrainLayer>): real {
    Budget(layers, 0, |layers|)
  }

  predicate NonNegativeHeights(layers: seq<TerrainLayer>) {
    forall i :: 0 <= i < |layers| ==> layers[i].mapHeight >= 0.0
  }

  /** With non-negative budgets, a prefix budget never exceeds a longer one. */
  lemma {:induction false} BudgetMonotone(layers: seq<TerrainLayer>, k: nat, i: nat, p: nat)
    requires NonNegativeHeights(layers)
    requires k <= i <= p <= |layers|
    ensures 0.0 <= Budget(layers, k, i) <= Budget(layers, k, p)
    decreases i - k
  {
    if k < i {
      BudgetMonotone(layers, k + 1, i, p);
    } else {
      BudgetNonNegative(layers, k, p);
    }
  }

  lemma {:induction false} BudgetNonNegative(layers: seq<TerrainLayer>, k: nat, i: nat)
    requires NonNegativeHeights(layers)
    requires k <= i <= |layers|
    ensures Budget(layers, k, i) >= 0.0
    decreases i - k
  {
    if k < i {
      BudgetNonNegative(layers, k + 1, i);
    }
  }

  /** On a freshly zeroed cell with non-negative budgets the "stored height is higher"
      skip never fires: the first layer whose band contains n is accepted, at a height
      equal to the budget of the layers before it plus its own clamped contribution,
      and the budget afterwards includes its mapHeight. No containing band: Unmatched. */
  lemma {:induction false} LayerPassOnZeroedCell(layers: seq<TerrainLayer>, k: nat, n: real, prev: real,
                                                 pow: (real, real) -> real)
    requires k <= |layers|
    requires NonNegativeHeights(layers)
    requires prev >= 0.0
    ensures LayerPassFrom(layers, k, n, 0.0, prev, pow) ==
      match FirstLayerFrom(layers, k, n)
      case None => Unmatched
      case Some(i) =>
        Accepted(GeneratedHeight(n, layers[i], prev + Budget(layers, k, i), pow),
                 prev + Budget(layers, k, i + 1))
    decreases |layers| - k
  {
    if k < |layers| && !InLayer(n, layers[k]) {
      LayerPassOnZeroedCell(layers, k + 1, n, prev + layers[k].mapHeight, pow);
      match FirstLayerFrom(layers, k + 1, n)
      case None =>
      case Some(i) =>
        assert Budget(layers, k, i) == layers[k].mapHeight + Budget(layers, k + 1, i);
        assert Budget(layers, k, i + 1) == layers[k].mapHeight + Budget(layers, k + 1, i + 1);
    }
  }

  /** The layer pass of one cell, as the scan starts it: from layer 0 with budget 0. */
  function LayerPass(layers: seq<TerrainLayer>, n: real, current: real, pow: (real, real) -> real): LayerOutcome {
    LayerPassFrom(layers, 0, n, current, 0.0, pow)
  }

  /** Bounds of an accepted layer on a zeroed cell: the height lies within the
      accepted layer's slice of the budget, and the budget after it never exceeds
      the sum of all mapHeights. */
  lemma AcceptedWithinBudget(layers: seq<TerrainLayer>, n: real, pow: (real, real) -> real)
    requires NonNegativeHeights(layers)
    ensures LayerPass(layers, n, 0.0, pow).Accepted? <==> FirstLayerFrom(layers, 0, n).Some?
    ensures LayerPass(layers, n, 0.0, pow).Accepted? ==>
      var i := FirstLayerFrom(layers, 0, n).value;
      var r := LayerPass(layers, n, 0.0, pow);
      && r.budget == Budget(layers, 0, i + 1)
      && Budget(layers, 0, i) <= r.height <= r.budget <= TotalBudget(layers)
  {
    LayerPassOnZeroedCell(layers, 0, n, 0.0, pow);
    match FirstLayerFrom(layers, 0, n)
    case None =>
    case Some(i) =>
      BudgetMonotone(layers, 0, i + 1, |layers|);
      BudgetNonNegative(layers, 0, i);
      assert Budget(layers, 0, i + 1) == Budget(layers, 0, i) + layers[i].mapHeight by {
        BudgetSplit(layers, 0, i);
      }
  }

  /** Budget(k, i + 1) extends Budget(k, i) by layer i. */
  lemma {:induction false} BudgetSplit(layers: seq<TerrainLayer>, k: nat, i: nat)
    requires k <= i < |layers|
    ensures Budget(layers, k, i + 1) == Budget(layers, k, i) + layers[i].mapHeight
    decreases i - k
  {
    if k < i {
      BudgetSplit(layers, k + 1, i);
    }
  }

  /** Whatever the stored height, an accepted layer's budget lies between the budget
      it started from and that plus every remaining mapHeight. */
  lemma {:induction false} AcceptedBudgetBound(layers: seq<TerrainLayer>, k: nat, n: real, current: real,
                                               prev: real, pow: (real, real) -> real)
    requires NonNegativeHeights(layers)
    requires k <= |layers|
    ensures LayerPassFrom(layers, k, n, current, prev, pow).Accepted? ==>
      prev <= LayerPassFrom(layers, k, n, current, prev, pow).budget <= prev + Budget(layers, k, |layers|)
    decreases |layers| - k
  {
    if k < |layers| {
      AcceptedBudgetBound(layers, k + 1, n, current, prev + layers[k].mapHeight, pow);
      BudgetNonNegative(layers, k + 1, |layers|);
    }
  }

  /** Noise no band contains leaves the cell's stored height in place; with every
      band closed below 1 this includes the normalised noise value 1.0 itself. */
  lemma NoiseOneMatchesNoLayer(layers: seq<TerrainLayer>, current: real, pow: (real, real) -> real)
    requires forall i :: 0 <= i < |layers| ==> layers[i].maxThreshold <= 1.0
    ensures LayerPass(layers, 1.0, current, pow) == Unmatched
  {
    assert NoLayerFrom(layers, 0, 1.0);
  }

  // ---------------------------------------------------------------- texture and colour selection

  /** The first texture rule, from k on, whose half-open band contains the level. */
  function FirstTextureFrom(rules: seq<SurfaceTexture>, k: nat, l: Level): (r: Option<nat>)
    requires k <= |rules|
    ensures r.Some? ==> k <= r.value < |rules| && TextureMatches(l, rules[r.value])
    ensures r.Some? ==> forall i :: k <= i < r.value ==> !TextureMatches(l, rules[i])
    ensures r.None? ==> forall i :: k <= i < |rules| ==> !TextureMatches(l, rules[i])
    ensures l.NaN? && k < |rules| ==> r == Some(k)
    decreases |rules| - k
  {
    if k == |rules| then None
    else if TextureMatches(l, rules[k]) then Some(k)
    else FirstTextureFrom(rules, k + 1, l)
  }

  /** The last colour rule whose inclusive band contains the level: the one whose
      colour survives when every matching rule writes in declared order. */
  function LastColor(rules: seq<SurfaceColor>, l: Level): (r: Option<nat>)
    ensures r.Some? ==> r.value < |rules| && ColorMatches(l, rules[r.value])
    ensures r.Some? ==> forall i :: r.value < i < |rules| ==> !ColorMatches(l, rules[i])
    ensures r.None? ==> forall i :: 0 <= i < |rules| ==> !ColorMatches(l, rules[i])
    ensures l.NaN? && |rules| > 0 ==> r == Some(|rules| - 1)
    decreases |rules|
  {
    if |rules| == 0 then None
    else if ColorMatches(l, rules[|rules| - 1]) then Some(|rules| - 1)
    else LastColor(rules[..|rules| - 1], l)
  }

  // ---------------------------------------------------------------- rule tables that tile [0,1]

  datatype Range = Range(lo: real, hi: real)

  /** The bands of a rule table, in declared order. */
  function Ranges<T>(rules: seq<T>, band: T -> Range): (r: seq<Range>)
    ensures |r| == |rules|
    ensures forall i :: 0 <= i < |r| ==> r[i] == band(rules[i])
  {
    seq(|rules|, i requires 0 <= i < |rules| => band(rules[i]))
  }

  function LayerBand(layer: TerrainLayer): Range {
    Range(layer.minThreshold, layer.maxThreshold)
  }

  function TextureBand(rule: SurfaceTexture): Range {
    Range(rule.minThreshold, rule.maxThreshold)
  }

  function ColorBand(rule: SurfaceColor): Range {
    Range(rule.minThreshold, rule.maxThreshold)
  }

  /** Non-empty bands, listed low to high, each starting where the previous one
      ends, from 0 to 1. */
  predicate Tiling(rs: seq<Range>) {
    && |rs| > 0
    && rs[0].lo == 0.0
    && rs[|rs| - 1].hi == 1.0
    && (forall i :: 0 <= i < |rs| ==> rs[i].lo < rs[i].hi)
    && (forall i :: 0 <= i < |rs| - 1 ==> rs[i].hi == rs[i + 1].lo)
  }

  /** In a tiling, an earlier band ends no later than a later one starts. */
  lemma {:induction false} TilingOrdered(rs: seq<Range>, i: nat, p: nat)
    requires Tiling(rs)
    requires i < p < |rs|
    ensures rs[i].hi <= rs[p].lo
    decreases p - i
  {
    if i + 1 < p {
      TilingOrdered(rs, i + 1, p);
    }
  }

  /** Every band of a tiling lies within [0,1]. */
  lemma TilingWithinUnit(rs: seq<Range>, i: nat)
    requires Tiling(rs)
    requires i < |rs|
    ensures 0.0 <= rs[i].lo && rs[i].hi <= 1.0
  {
    if 0 < i {
      TilingOrdered(rs, 0, i);
    }
    if i < |rs| - 1 {
      TilingOrdered(rs, i, |rs| - 1);
    }
  }

  /** Half-open bands of a tiling: every value in [0,1) lies in exactly one. */
  lemma {:induction false} TilingHalfOpenUnique(rs: seq<Range>, v: real)
    requires Tiling(rs)
    requires 0.0 <= v < 1.0
    ensures exists i :: 0 <= i < |rs| && rs[i].lo <= v < rs[i].hi
    ensures forall i, p :: 0 <= i < |rs| && 0 <= p < |rs| && rs[i].lo <= v < rs[i].hi && rs[p].lo <= v < rs[p].hi ==> i == p
  {
    var i := HalfOpenBandOf(rs, v, 0);
    forall i, p | 0 <= i < |rs| && 0 <= p < |rs| && rs[i].lo <= v < rs[i].hi && rs[p].lo <= v < rs[p].hi
      ensures i == p
    {
      if i < p { TilingOrdered(rs, i, p); }
      if p < i { TilingOrdered(rs, p, i); }
    }
  }

  /** Finds the band containing v, searching from band k (v at or above band k's start). */
  lemma {:induction false} HalfOpenBandOf(rs: seq<Range>, v: real, k: nat) returns (i: nat)
    requires Tiling(rs)
    requires k < |rs| && rs[k].lo <= v < 1.0
    ensures k <= i < |rs| && rs[i].lo <= v < rs[i].hi
    decreases |rs| - k
  {
    if v < rs[k].hi {
      i := k;
    } else {
      i := HalfOpenBandOf(rs, v, k + 1);
    }
  }

  /** Inclusive bands of a tiling cover all of [0,1]. */
  lemma TilingClosedCovers(rs: seq<Range>, v: real)
    requires Tiling(rs)
    requires 0.0 <= v <= 1.0
    ensures exists i :: 0 <= i < |rs| && rs[i].lo <= v <= rs[i].hi
  {
    if v < 1.0 {
      var i := HalfOpenBandOf(rs, v, 0);
    } else {
      assert rs[|rs| - 1].lo <= v <= rs[|rs| - 1].hi;
    }
  }

  /** A layer table whose bands tile [0,1) sends every noise value below 1 to exactly
      one layer, and the layer pass picks that one. */
  lemma TiledLayersMatchOnce(layers: seq<TerrainLayer>, n: real)
    requires Tiling(Ranges(layers, LayerBand))
    requires 0.0 <= n < 1.0
    ensures FirstLayerFrom(layers, 0, n).Some?
    ensures forall p :: 0 <= p < |layers| && InLayer(n, layers[p]) ==> p == FirstLayerFrom(layers, 0, n).value
  {
    var rs := Ranges(layers, LayerBand);
    TilingHalfOpenUnique(rs, n);
    var i :| 0 <= i < |rs| && rs[i].lo <= n < rs[i].hi;
    assert InLayer(n, layers[i]);
  }

  /** The same for texture tables over a finite normalised height below 1. */
  lemma TiledTexturesMatchOnce(rules: seq<SurfaceTexture>, l: Level)
    requires Tiling(Ranges(rules, TextureBand))
    requires l.Finite? && 0.0 <= l.value < 1.0
    ensures FirstTextureFrom(rules, 0, l).Some?
    ensures forall p :: 0 <= p < |rules| && TextureMatches(l, rules[p]) ==> p == FirstTextureFrom(rules, 0, l).value
  {
    var rs := Ranges(rules, TextureBand);
    TilingHalfOpenUnique(rs, l.value);
    var i :| 0 <= i < |rs| && rs[i].lo <= l.value < rs[i].hi;
    assert TextureMatches(l, rules[i]);
  }

  /** Inclusive colour bands that tile [0,1] give every finite level a colour; at a
      boundary two neighbours share, both match and the later one's colour is kept. */
  lemma TiledColorsCover(rules: seq<SurfaceColor>, v: real)
    requires Tiling(Ranges(rules, ColorBand))
    requires 0.0 <= v <= 1.0
    ensures LastColor(rules, Finite(v)).Some?
  {
    var rs := Ranges(rules, ColorBand);
    TilingClosedCovers(rs, v);
    var i :| 0 <= i < |rs| && rs[i].lo <= v <= rs[i].hi;
    assert ColorMatches(Finite(v), rules[i]);
  }

  lemma TiledColorsBoundaryGoesLater(rules: seq<SurfaceColor>, i: nat, b: Level)
    requires Tiling(Ranges(rules, ColorBand))
    requires i + 1 < |rules|
    requires b == Finite(rules[i].maxThreshold)
    ensures ColorMatches(b, rules[i]) && ColorMatches(b, rules[i + 1])
    ensures LastColor(rules, b) == Some(i + 1)
  {
    var rs := Ranges(rules, ColorBand);
    assert rs[i].hi == rs[i + 1].lo && rs[i].lo < rs[i].hi;
    forall p | i + 1 < p < |rules| ensures !ColorMatches(b, rules[p]) {
      TilingOrdered(rs, i + 1, p);
    }
    assert ColorMatches(b, rules[i + 1]);
  }
}
