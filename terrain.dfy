/** The Terrain tile of src/Terrain.ts: its geometry, its height, noise and colour
    buffers, and the operations that fill and combine them in place. Each method is
    proved equal to the value-level definitions of modules Synthesis and TileCells. */
module TerrainTile {
  import opened Wrappers
  import opened RealMath
  import opened Environments
  import opened TerrainRules
  import opened Callbacks
  import opened TileCells
  import opened Synthesis
  import MountainousEverglades

  /** The options a tile is built from, after defaults: what cloneOptions returns. */
  datatype Options = Options(
    width: nat,
    depth: nat,
    offsetX: real,
    offsetZ: real,
    strideX: real,
    strideZ: real,
    environment: Option<Environment>,
    noiseGenerator: Option<(real, real) -> real>)

  /** The generator a tile built from these options samples: its own, or the default. */
  function GeneratorOf(o: Options, host: Host): (real, real) -> real {
    if o.noiseGenerator.Some? then o.noiseGenerator.value else host.defaultNoise
  }

  function GridOf(o: Options): Grid {
    Grid(o.width, o.depth, o.offsetX, o.offsetZ, o.strideX, o.strideZ)
  }

  /** The running maximum over one more sample. */
  lemma NoiseMaxStep(raw: seq<real>, i: nat)
    requires i < |raw|
    ensures NoiseMax(raw[..i + 1]) == Max(raw[i], NoiseMax(raw[..i]))
  {
    assert raw[..i + 1][..i] == raw[..i];
  }

  /** The first loop of createNoiseData: a zeroed buffer receives each cell's sample,
      and `noiseHeightMax` keeps the running maximum from 0. */
  method SampleNoise(g: Grid, generate: (real, real) -> real) returns (buffer: array<real>, noiseHeightMax: real)
    requires g.width > 0
    ensures fresh(buffer)
    ensures buffer[..] == RawNoise(g, generate)
    ensures noiseHeightMax == NoiseMax(RawNoise(g, generate))
  {
    ghost var raw := RawNoise(g, generate);
    buffer := new real[g.Size()](_ => 0.0);
    noiseHeightMax := 0.0;
    var i := 0;
    while i < buffer.Length
      invariant 0 <= i <= buffer.Length == |raw|
      invariant buffer[..i] == raw[..i]
      invariant forall k :: i <= k < buffer.Length ==> buffer[k] == 0.0
      invariant noiseHeightMax == NoiseMax(raw[..i])
    {
      buffer[i] := buffer[i] + Sample(g, generate, i);
      NoiseMaxStep(raw, i);
      noiseHeightMax := Max(buffer[i], noiseHeightMax);
      i := i + 1;
    }
    assert buffer[..] == buffer[..i];
    assert raw[..i] == raw;
  }

  /** The second loop of createNoiseData: every sample divided by the maximum and
      clamped to [0, 1]. */
  method NormalizeNoise(buffer: array<real>, noiseHeightMax: real)
    requires noiseHeightMax > 0.0
    modifies buffer
    ensures buffer[..] == NormalizeBy(old(buffer[..]), noiseHeightMax)
  {
    ghost var normalized := NormalizeBy(buffer[..], noiseHeightMax);
    var i := 0;
    while i < buffer.Length
      invariant 0 <= i <= buffer.Length
      invariant buffer[..i] == normalized[..i]
      invariant buffer[i..] == old(buffer[i..])
    {
      buffer[i] := NormalizeOne(buffer[i], noiseHeightMax);
      i := i + 1;
    }
    assert buffer[..] == buffer[..i];
  }

  /** A texture callback invoked on the height buffer; the ripple texture runs its
      sampling loop. */
  method CallTexture(cb: TextureCallback, data: seq<real>, j: nat, x: nat, y: nat, host: Host) returns (r: real)
    requires j < |data|
    ensures r == ApplyTexture(cb, data, j, x, y, host)
  {
    match cb {
      case Ripple(z) =>
        r := MountainousEverglades.RippleTexture(data, j, x as real, y as real, z, host);
      case _ =>
        r := ApplyTexture(cb, data, j, x, y, host);
    }
  }

  /** One step of the scan: visiting (x, y) is the cell step followed by the rest. */
  lemma ScanFromUnfolds(env: Environment, noise: seq<real>, g: Grid, host: Host, x: nat, y: nat, j: nat, s: ScanState)
    requires g.width > 0 && |noise| == |s.data| == g.Size() && s.maxHeight >= 0.0
    requires x < g.width && y < g.depth && j == x + y * g.width
    ensures j < |s.data|
    ensures ScanFrom(env, noise, g, host, false, x, y, s)
         == ScanFrom(env, noise, g, host, false, x, y + 1, CellStep(env, noise, g.width, x, y, j, s.data[j], s, host))
  {
    CellIndex(x, y, g.width, g.depth);
  }

  /** Past the last cell of column x the scan goes on at the top of column x + 1. */
  lemma ScanNextColumn(env: Environment, noise: seq<real>, g: Grid, host: Host, x: nat, s: ScanState, target: ScanState)
    requires x < g.width && ScanLeads(env, noise, g, host, x, g.depth, s, target)
    ensures ScanLeads(env, noise, g, host, x + 1, 0, s, target)
  {
  }

  /** Scanning from (x, y) on with state s ends in `target`. */
  predicate ScanLeads(env: Environment, noise: seq<real>, g: Grid, host: Host, x: nat, y: nat, s: ScanState, target: ScanState) {
    g.width > 0 && |noise| == |s.data| == g.Size() && s.maxHeight >= 0.0 && y <= g.depth &&
    ScanFrom(env, noise, g, host, false, x, y, s) == target
  }

  /** The cells of a width x depth tile that graphXY has visited when it is about
      to visit (x, y): what its `inspectedPixels` holds at that point. */
  function Visited(width: nat, depth: nat, x: nat, y: nat): set<nat>
    requires width > 0
  {
    set k: nat | k < width * depth && !Unvisited(width, x, y, k)
  }

  /** Nothing is visited before the first cell. */
  lemma NothingVisited(width: nat, depth: nat)
    requires width > 0
    ensures Visited(width, depth, 0, 0) == {}
  {
  }

  /** Cell (x, y) is new when graphXY reaches it, and afterwards it is visited. */
  lemma VisitedStep(width: nat, depth: nat, x: nat, y: nat)
    requires x < width && y < depth
    ensures 0 <= x + y * width < width * depth
    ensures x + y * width !in Visited(width, depth, x, y)
    ensures Visited(width, depth, x, y + 1) == Visited(width, depth, x, y) + {x + y * width}
  {
    CellIndex(x, y, width, depth);
    var j := x + y * width;
    forall k: nat | k < width * depth
      ensures !Unvisited(width, x, y + 1, k) <==> !Unvisited(width, x, y, k) || k == j
    {
      if k % width == x && k / width == y {
        calc {
          k;
          == k / width * width + k % width;
          == j;
        }
      }
    }
  }

  /** A finished column x leaves the same cells visited as the top of column x + 1. */
  lemma VisitedNextColumn(width: nat, depth: nat, x: nat)
    requires x < width
    ensures Visited(width, depth, x, depth) == Visited(width, depth, x + 1, 0)
  {
    forall k: nat | k < width * depth
      ensures k % width == x ==> k / width < depth
    {
      if k / width >= depth {
        MulAtLeastBound(k, width, depth);
      }
    }
  }

  /** A tile whose mapping was skipped: a zeroed height buffer and no colours. */
  function BlankSurface(size: nat): (r: Surface)
    ensures |r.data| == size
  {
    Surface(seq(size, _ => 0.0), map[])
  }

  /** The surface mutate makes of four same-shaped surfaces. */
  function MutatedSurface(a: Surface, b: Surface, c: Surface, d: Surface, width: nat, depth: nat): (r: Surface)
    requires width > 0 && |a.data| == |b.data| == |c.data| == |d.data| == width * depth
    ensures r.data == BlendHeights(a.data, b.data, c.data, d.data, width, depth)
  {
    MutateHeightsAreBlended(a.data, b.data, c.data, d.data, width, depth);
    var picks := MutatePicks(a.data, b.data, c.data, d.data, width, depth);
    Surface(PickedHeights(picks), PickedColors(picks, a.colors, b.colors, c.colors, d.colors))
  }

  /** Mutate of four blank tiles is a blank tile. */
  lemma MutateOfBlankTiles(width: nat, depth: nat)
    requires width > 0
    ensures MutatedSurface(BlankSurface(width * depth), BlankSurface(width * depth),
                           BlankSurface(width * depth), BlankSurface(width * depth), width, depth)
         == BlankSurface(width * depth)
  {
    var blank := BlankSurface(width * depth);
    MutateOfIdenticalTiles(blank.data, map[], width, depth);
  }

  /** Stitch has rewritten the margin cells of source before cell t of line k,
      blending the original heights src and colours srcColors of source towards
      the original heights tgt and colours tgtColors of target. */
  ghost predicate StitchedUpTo(source: Terrain, target: Terrain, side: StitchSide, k: nat, t: nat, host: Host,
                               src: seq<real>, tgt: seq<real>, srcColors: map<nat, Color>, tgtColors: map<nat, Color>)
    reads source, source.data, target, target.data
  {
    source.width > 0 && source.data.Length == source.width * source.depth && target.data.Length == source.data.Length &&
    |src| == |tgt| == source.data.Length && SideMargin(side, source.width, source.depth) != 1 &&
    StitchPosition(side, k, t, source.width, source.depth) &&
    source.data[..] == StitchedHeights(side, src, tgt, k, t, source.width, source.depth) &&
    source.surfaceData == StitchedColors(side, srcColors, tgtColors, k, t, source.width, source.depth, host) &&
    (target.data != source.data ==> target.data[..] == tgt) &&
    (target.data == source.data ==> tgt == src) &&
    (target != source ==> target.surfaceData == tgtColors) &&
    (target == source ==> tgtColors == srcColors)
  }

  class Terrain {
    const width: nat
    const depth: nat
    const size: nat
    const offsetX: real
    const offsetZ: real
    const strideX: real
    const strideZ: real
    const environment: Option<Environment>
    var noiseGenerator: Option<(real, real) -> real>
    var data: array<real>
    var noiseData: array<real>
    var surfaceData: map<nat, Color>
    var kf: FilterState

    /** The geometry is consistent and the height buffer covers the tile. */
    ghost predicate Valid()
      reads this`data, this`noiseData
    {
      width > 0 && depth > 0 && size == width * depth && noiseData != data &&
      (environment.Some? ==> data.Length == size)
    }

    /** The constructor with initializeTerrain: the options become the tile's
        geometry, environment and generator. With an environment the tile is mapped
        (applyEnvironment) unless mapping is skipped, in which case it gets a zeroed
        height buffer and no colours. Without an environment the buffers stay unset,
        modelled as an empty height buffer. */
    constructor (opts: Options, skipEnvironmentMapping: bool, host: Host)
      requires opts.width > 0 && opts.depth > 0
      requires opts.environment.Some? && !skipEnvironmentMapping ==>
        Mappable(opts.environment.value, GridOf(opts), GeneratorOf(opts, host), host)
      ensures width == opts.width && depth == opts.depth && size == width * depth
      ensures offsetX == opts.offsetX && offsetZ == opts.offsetZ
      ensures strideX == opts.strideX && strideZ == opts.strideZ
      ensures environment == opts.environment
      ensures Valid() && fresh(data)
      ensures opts.environment.Some? && !skipEnvironmentMapping ==>
        noiseGenerator == Some(GeneratorOf(opts, host)) &&
        Surface(data[..], surfaceData) == EnvironmentSurface(opts.environment.value, GridOf(opts), GeneratorOf(opts, host), host)
      ensures opts.environment.Some? && skipEnvironmentMapping ==>
        noiseGenerator == opts.noiseGenerator && surfaceData == map[] &&
        data.Length == size && forall k :: 0 <= k < size ==> data[k] == 0.0
      ensures opts.environment.None? ==>
        noiseGenerator == opts.noiseGenerator && surfaceData == map[] && data.Length == 0
    {
      width, depth, size := opts.width, opts.depth, opts.width * opts.depth;
      offsetX, offsetZ, strideX, strideZ := opts.offsetX, opts.offsetZ, opts.strideX, opts.strideZ;
      environment := opts.environment;
      noiseGenerator := opts.noiseGenerator;
      data := new real[if opts.environment.Some? then opts.width * opts.depth else 0](_ => 0.0);
      noiseData := new real[0];
      surfaceData := map[];
      kf := Unset;
      new;
      if environment.Some? && !skipEnvironmentMapping {
        assert Geometry() == GridOf(opts) && Generator(host) == GeneratorOf(opts, host);
        ApplyEnvironment(host);
      }
    }

    function Geometry(): (g: Grid)
      ensures g.width == width && g.depth == depth && g.Size() == width * depth
    {
      Grid(width, depth, offsetX, offsetZ, strideX, strideZ)
    }

    /** cloneOptions: the tile's geometry and environment, and its generator only
        when `includeNoise` is set. */
    function CloneOptions(includeNoise: bool): (o: Options)
      reads this`noiseGenerator
      ensures GridOf(o) == Geometry() && o.environment == environment
      ensures o.noiseGenerator == if includeNoise then noiseGenerator else None
    {
      Options(width, depth, offsetX, offsetZ, strideX, strideZ, environment,
              if includeNoise then noiseGenerator else None)
    }

    /** The generator createNoiseData samples. */
    function Generator(host: Host): (real, real) -> real
      reads this`noiseGenerator
    {
      if noiseGenerator.Some? then noiseGenerator.value else host.defaultNoise
    }

    /** createNoiseData: install the default generator when none was given, sample
        every cell into a fresh buffer while keeping the running maximum, then divide
        by the maximum and clamp. */
    method CreateNoiseData(host: Host)
      requires Valid()
      requires NoiseMax(RawNoise(Geometry(), Generator(host))) > 0.0
      modifies this
      ensures Valid() && data == old(data) && surfaceData == old(surfaceData) && kf == old(kf)
      ensures noiseGenerator == Some(old(Generator(host)))
      ensures fresh(noiseData) && noiseData.Length == size
      ensures noiseData[..] == Noise(Geometry(), old(Generator(host)))
    {
      if noiseGenerator.None? {
        noiseGenerator := Some(host.defaultNoise);
      }
      var noiseHeightMax;
      noiseData, noiseHeightMax := SampleNoise(Geometry(), noiseGenerator.value);
      NormalizeNoise(noiseData, noiseHeightMax);
    }

    /** The last loop of applyEnvironment: divide every height by the final maximum,
        clamp, and pass it through the filter in flat index order. */
    method FinalizeHeights(maxHeight: real, host: Host)
      requires Valid() && environment.Some? && maxHeight > 0.0
      modifies data, this`kf
      ensures Valid()
      ensures data[..] == Smooth(NormalizeBy(old(data[..]), maxHeight), old(kf), host).values
      ensures kf == Smooth(NormalizeBy(old(data[..]), maxHeight), old(kf), host).state
    {
      ghost var normalized := NormalizeBy(data[..], maxHeight);
      ghost var start := kf;
      var j := 0;
      while j < size
        invariant 0 <= j <= size
        invariant data[..j] == Smooth(normalized[..j], start, host).values
        invariant kf == Smooth(normalized[..j], start, host).state
        invariant data[j..] == old(data[j..])
      {
        data[j] := NormalizeOne(data[j], maxHeight);
        var step := FilterStep(kf, data[j], host);
        kf := step.0;
        data[j] := step.1;
        assert normalized[..j + 1][..j] == normalized[..j];
        j := j + 1;
      }
      assert normalized[..size] == normalized;
    }

    /** The layer loop of applyEnvironment's callback for cell j: walk the layers
        with the budget `prev_height`, accept the first one whose band holds the
        noise and whose candidate is not below the stored height, and raise the
        running maximum to the budget after it. */
    method RunLayers(j: nat, maxHeight: real, host: Host) returns (newMax: real)
      requires Valid() && environment.Some? && j < size && noiseData.Length == size
      modifies data
      ensures ScanState(data[..], surfaceData, newMax)
           == LayerStep(environment.value.terrainLayers, noiseData[j], j, old(data[j]),
                        ScanState(old(data[..]), surfaceData, maxHeight), host.pow)
    {
      var layers := environment.value.terrainLayers;
      var n := noiseData[j];
      var current := data[j];
      var prevHeight := 0.0;
      newMax := maxHeight;
      var k := 0;
      while k < |layers|
        invariant 0 <= k <= |layers|
        invariant LayerPassFrom(layers, k, n, current, prevHeight, host.pow) == LayerPass(layers, n, current, host.pow)
        invariant data[..] == old(data[..]) && newMax == maxHeight
      {
        var layer := layers[k];
        if !InLayer(n, layer) {
          prevHeight := prevHeight + layer.mapHeight;
          k := k + 1;
          continue;
        }
        var generatedHeight := GeneratedHeight(n, layer, prevHeight, host.pow);
        if data[j] > generatedHeight {
          prevHeight := prevHeight + layer.mapHeight;
          k := k + 1;
          continue;
        }
        data[j] := generatedHeight;
        prevHeight := prevHeight + layer.mapHeight;
        newMax := Max(newMax, prevHeight);
        return;
      }
    }

    /** The texture loop for cell (x, y) = j: the first texture whose band holds the
        normalised height rewrites the height through its callback. */
    method RunTextures(x: nat, y: nat, j: nat, maxHeight: real, host: Host)
      requires Valid() && environment.Some? && j < size && maxHeight >= 0.0
      modifies data
      ensures ScanState(data[..], surfaceData, maxHeight)
           == TextureStep(environment.value.surfaceTextures, j, x, y,
                          ScanState(old(data[..]), surfaceData, maxHeight), host)
    {
      var rules := environment.value.surfaceTextures;
      var level := NormalizedHeight(data[j], maxHeight);
      var k := 0;
      while k < |rules|
        invariant 0 <= k <= |rules|
        invariant FirstTextureFrom(rules, k, level) == FirstTextureFrom(rules, 0, level)
        invariant data[..] == old(data[..])
      {
        if !TextureMatches(level, rules[k]) {
          k := k + 1;
          continue;
        }
        var h := CallTexture(rules[k].callback, data[..], j, x, y, host);
        data[j] := h;
        return;
      }
    }

    /** The colour loop for cell j: every colour whose inclusive band holds the
        normalised height writes its colour, so the last one's stays. */
    method RunColors(j: nat, maxHeight: real, host: Host)
      requires Valid() && environment.Some? && j < size && maxHeight >= 0.0
      modifies this`surfaceData
      ensures ScanState(data[..], surfaceData, maxHeight)
           == ColorStep(environment.value.surfaceColors, j, width,
                        ScanState(data[..], old(surfaceData), maxHeight), host)
    {
      var rules := environment.value.surfaceColors;
      ghost var s0 := ScanState(data[..], surfaceData, maxHeight);
      var level := NormalizedHeight(data[j], maxHeight);
      var k := 0;
      while k < |rules|
        invariant 0 <= k <= |rules|
        invariant ScanState(data[..], surfaceData, maxHeight) == ColorStep(rules[..k], j, width, s0, host)
      {
        assert rules[..k + 1][..k] == rules[..k];
        if ColorMatches(level, rules[k]) {
          surfaceData := surfaceData[j := ApplyColor(rules[k].callback, data[..], j, width, host)];
        }
        k := k + 1;
      }
      assert rules[..k] == rules;
    }

    /** applyEnvironment's callback for cell (x, y) = j: layers, textures, colours. */
    method ProcessCell(x: nat, y: nat, j: nat, maxHeight: real, host: Host) returns (newMax: real)
      requires Valid() && environment.Some? && j < size && noiseData.Length == size && maxHeight >= 0.0
      modifies data, this`surfaceData
      ensures ScanState(data[..], surfaceData, newMax)
           == CellStep(environment.value, noiseData[..], width, x, y, j, old(data[j]),
                       ScanState(old(data[..]), old(surfaceData), maxHeight), host)
    {
      newMax := RunLayers(j, maxHeight, host);
      RunTextures(x, y, j, newMax, host);
      RunColors(j, newMax, host);
    }

    /** The state of the scan as the value-level definitions see it. */
    function State(maxHeight: real): ScanState
      reads this, data
    {
      ScanState(data[..], surfaceData, maxHeight)
    }

    /** One pass of graphXY's inner loop at (x, y): the cell is not yet inspected,
        so the callback runs on it and it is marked; the scan from (x, y) is the scan
        from (x, y + 1) after this cell. */
    method GraphCell(x: nat, y: nat, inspected0: set<nat>, maxHeight: real, host: Host,
                     ghost env: Environment, ghost noise: seq<real>, ghost g: Grid, ghost target: ScanState)
      returns (inspected: set<nat>, newMax: real)
      requires Valid() && environment == Some(env) && noiseData[..] == noise && g == Geometry()
      requires x < width && y < depth && inspected0 == Visited(width, depth, x, y)
      requires ScanLeads(env, noise, g, host, x, y, State(maxHeight), target)
      modifies data, this`surfaceData
      ensures inspected == Visited(width, depth, x, y + 1)
      ensures ScanLeads(env, noise, g, host, x, y + 1, State(newMax), target)
    {
      inspected, newMax := inspected0, maxHeight;
      VisitedStep(width, depth, x, y);
      var j: nat := x + y * width;
      if j in inspected {
        assert false;
      } else {
        ScanFromUnfolds(environment.value, noiseData[..], Geometry(), host, x, y, j, State(maxHeight));
        newMax := ProcessCell(x, y, j, maxHeight, host);
        inspected := inspected + {j};
      }
    }

    /** graphXY with applyEnvironment's callback: columns x = 0 .. width - 1, each
        from row 0 to depth - 1, visiting cell x + y * width unless it was inspected
        already (it never was: each cell index belongs to one (x, y)). */
    method GraphXY(host: Host) returns (maxHeight: real)
      requires Valid() && environment.Some? && noiseData.Length == size
      modifies data, this`surfaceData
      ensures State(maxHeight)
           == ScanFrom(environment.value, noiseData[..], Geometry(), host, false, 0, 0, old(State(0.0)))
    {
      ghost var env, noise, g := environment.value, noiseData[..], Geometry();
      ghost var target := ScanFrom(env, noise, g, host, false, 0, 0, State(0.0));
      maxHeight := 0.0;
      var inspected: set<nat> := {};
      NothingVisited(width, depth);
      var x := 0;
      while x < width
        invariant 0 <= x <= width
        invariant inspected == Visited(width, depth, x, 0)
        invariant noiseData[..] == noise
        invariant ScanLeads(env, noise, g, host, x, 0, State(maxHeight), target)
      {
        inspected, maxHeight := GraphColumn(x, inspected, maxHeight, host, env, noise, g, target);
        x := x + 1;
      }
    }

    /** The inner loop of graphXY: column x, rows 0 .. depth - 1. */
    method GraphColumn(x: nat, inspected0: set<nat>, maxHeight0: real, host: Host,
                       ghost env: Environment, ghost noise: seq<real>, ghost g: Grid, ghost target: ScanState)
      returns (inspected: set<nat>, maxHeight: real)
      requires Valid() && environment == Some(env) && noiseData[..] == noise && g == Geometry()
      requires x < width && inspected0 == Visited(width, depth, x, 0)
      requires ScanLeads(env, noise, g, host, x, 0, State(maxHeight0), target)
      modifies data, this`surfaceData
      ensures inspected == Visited(width, depth, x + 1, 0)
      ensures ScanLeads(env, noise, g, host, x + 1, 0, State(maxHeight), target)
    {
      inspected, maxHeight := inspected0, maxHeight0;
      var y := 0;
      while y < depth
        invariant 0 <= y <= depth
        invariant noiseData[..] == noise
        invariant inspected == Visited(width, depth, x, y)
        invariant ScanLeads(env, noise, g, host, x, y, State(maxHeight), target)
      {
        inspected, maxHeight := GraphCell(x, y, inspected, maxHeight, host, env, noise, g, target);
        y := y + 1;
      }
      VisitedNextColumn(width, depth, x);
      ScanNextColumn(env, noise, g, host, x, State(maxHeight), target);
    }

    /** applyEnvironment: fresh buffers and filter, the noise, the scan, and the
        final pass over the running maximum. */
    method ApplyEnvironment(host: Host)
      requires Valid() && environment.Some?
      requires Mappable(environment.value, Geometry(), Generator(host), host)
      modifies this
      ensures Valid() && fresh(data)
      ensures noiseGenerator == Some(old(Generator(host)))
      ensures Surface(data[..], surfaceData) == EnvironmentSurface(environment.value, Geometry(), old(Generator(host)), host)
    {
      ghost var env, g, generate := environment.value, Geometry(), Generator(host);
      data := new real[size](_ => 0.0);
      surfaceData := map[];
      kf := Unset;
      CreateNoiseData(host);
      ghost var noise := noiseData[..];
      assert noise == Noise(g, generate);
      ghost var scan := ScanGrid(env, noise, g, host);
      assert scan.maxHeight > 0.0;
      assert State(0.0) == FreshState(size);
      var maxHeight := GraphXY(host);
      assert State(maxHeight) == scan;
      FinalizeHeights(maxHeight, host);
      assert noiseGenerator == Some(generate);
    }

    /** The tile interpolate, merge and mutate start from: a's options with its
        generator, mapping skipped, so a zeroed height buffer and no colours. */
    static method Blank(a: Terrain, host: Host) returns (t: Terrain)
      requires a.Valid() && a.environment.Some?
      ensures fresh(t) && fresh(t.data) && t.Valid() && t.data.Length == t.size && t.surfaceData == map[]
      ensures forall k :: 0 <= k < t.data.Length ==> t.data[k] == 0.0
      ensures t.Geometry() == a.Geometry() && t.environment == a.environment && t.noiseGenerator == a.noiseGenerator
    {
      t := new Terrain(a.CloneOptions(true), true, host);
    }

    /** The loop of interpolate, filling this tile from the corner tiles' heights
        a, b, c, d and colours ca, cb, cc, cd. */
    method FillInterpolated(a: array<real>, b: array<real>, c: array<real>, d: array<real>,
                            ca: map<nat, Color>, cb: map<nat, Color>, cc: map<nat, Color>, cd: map<nat, Color>,
                            host: Host)
      requires Valid() && data.Length == size && surfaceData == map[]
      requires a.Length == b.Length == c.Length == d.Length == size
      requires data != a && data != b && data != c && data != d
      modifies data, this`surfaceData
      ensures data[..] == BlendHeights(a[..], b[..], c[..], d[..], width, depth)
      ensures surfaceData == BlendColors(ca, cb, cc, cd, width, depth, host)
    {
      ghost var heights := BlendHeights(a[..], b[..], c[..], d[..], width, depth);
      ghost var colors := BlendColors(ca, cb, cc, cd, width, depth, host);
      var j := 0;
      while j < size
        invariant 0 <= j <= size
        invariant data[..j] == heights[..j]
        invariant FilledBelow(surfaceData, colors, j)
      {
        var horizontalWeight := HorizontalWeight(j, width);
        var verticalWeight := VerticalWeight(j, width, depth);
        data[j] := Lerp(Lerp(a[j], b[j], horizontalWeight), Lerp(c[j], d[j], horizontalWeight), verticalWeight);
        FilledBelowStep(surfaceData, colors, j);
        surfaceData := WithColor(surfaceData, j, Some(BlendColor(ca, cb, cc, cd, j, width, depth, host)));
        PrefixStep(data[..], heights, j);
        j := j + 1;
      }
      assert data[..] == data[..j];
      FilledBelowAll(surfaceData, colors, j);
    }

    /** The loop of merge: each cell takes the tallest height and the colour of the
        first tile, in order a, b, c, d, whose height equals it. */
    method FillMerged(a: array<real>, b: array<real>, c: array<real>, d: array<real>,
              ca: map<nat, Color>, cb: map<nat, Color>, cc: map<nat, Color>, cd: map<nat, Color>)
      requires Valid() && data.Length == size && surfaceData == map[]
      requires a.Length == b.Length == c.Length == d.Length == size
      requires data != a && data != b && data != c && data != d
      modifies data, this`surfaceData
      ensures data[..] == PickedHeights(MergePicks(a[..], b[..], c[..], d[..]))
      ensures surfaceData == PickedColors(MergePicks(a[..], b[..], c[..], d[..]), ca, cb, cc, cd)
    {
      ghost var picks := MergePicks(a[..], b[..], c[..], d[..]);
      ghost var heights := PickedHeights(picks);
      ghost var colors := PickedColors(picks, ca, cb, cc, cd);
      var j := 0;
      while j < size
        invariant 0 <= j <= size
        invariant data[..j] == heights[..j]
        invariant FilledBelow(surfaceData, colors, j)
      {
        var pick := MergeCell(a[j], b[j], c[j], d[j]);
        data[j] := pick.height;
        var picked := PickedColor(pick, ColorAt(ca, j), ColorAt(cb, j), ColorAt(cc, j), ColorAt(cd, j));
        FilledBelowStep(surfaceData, colors, j);
        surfaceData := WithColor(surfaceData, j, picked);
        PrefixStep(data[..], heights, j);
        j := j + 1;
      }
      assert data[..] == data[..j];
      FilledBelowAll(surfaceData, colors, j);
    }

    /** The loop of mutate: each cell takes the bilinear height and the colour of the
        first tile, in order a, b, c, d, whose weighted height lies nearest it. */
    method FillMutated(a: array<real>, b: array<real>, c: array<real>, d: array<real>,
              ca: map<nat, Color>, cb: map<nat, Color>, cc: map<nat, Color>, cd: map<nat, Color>)
      requires Valid() && data.Length == size && surfaceData == map[]
      requires a.Length == b.Length == c.Length == d.Length == size
      requires data != a && data != b && data != c && data != d
      modifies data, this`surfaceData
      ensures data[..] == PickedHeights(MutatePicks(a[..], b[..], c[..], d[..], width, depth))
      ensures surfaceData == PickedColors(MutatePicks(a[..], b[..], c[..], d[..], width, depth), ca, cb, cc, cd)
    {
      ghost var picks := MutatePicks(a[..], b[..], c[..], d[..], width, depth);
      ghost var heights := PickedHeights(picks);
      ghost var colors := PickedColors(picks, ca, cb, cc, cd);
      var j := 0;
      while j < size
        invariant 0 <= j <= size
        invariant data[..j] == heights[..j]
        invariant FilledBelow(surfaceData, colors, j)
      {
        var pick := MutateCell(a[j], b[j], c[j], d[j], HorizontalWeight(j, width), VerticalWeight(j, width, depth));
        data[j] := pick.height;
        var picked := PickedColor(pick, ColorAt(ca, j), ColorAt(cb, j), ColorAt(cc, j), ColorAt(cd, j));
        FilledBelowStep(surfaceData, colors, j);
        surfaceData := WithColor(surfaceData, j, picked);
        PrefixStep(data[..], heights, j);
        j := j + 1;
      }
      assert data[..] == data[..j];
      FilledBelowAll(surfaceData, colors, j);
    }

    /** interpolate: a new unmapped tile with a's options whose every cell is the
        bilinear blend of the four tiles' heights and the colour-lerp of their colours,
        weighted by the squared relative position of the cell. */
    static method Interpolate(a: Terrain, b: Terrain, c: Terrain, d: Terrain, host: Host) returns (t: Terrain)
      requires a.Valid() && a.environment.Some?
      requires b.data.Length == c.data.Length == d.data.Length == a.size
      ensures fresh(t) && fresh(t.data) && t.Valid()
      ensures t.Geometry() == a.Geometry() && t.environment == a.environment && t.noiseGenerator == a.noiseGenerator
      ensures t.data[..] == BlendHeights(a.data[..], b.data[..], c.data[..], d.data[..], a.width, a.depth)
      ensures t.surfaceData == BlendColors(a.surfaceData, b.surfaceData, c.surfaceData, d.surfaceData, a.width, a.depth, host)
    {
      t := Blank(a, host);
      t.FillInterpolated(a.data, b.data, c.data, d.data, a.surfaceData, b.surfaceData, c.surfaceData, d.surfaceData, host);
    }

    /** merge: a new unmapped tile with a's options whose every cell takes the
        tallest of the four heights and the colour of the first tile, in order a, b,
        c, d, that has it. */
    static method Merge(a: Terrain, b: Terrain, c: Terrain, d: Terrain, host: Host) returns (t: Terrain)
      requires a.Valid() && a.environment.Some?
      requires b.data.Length == c.data.Length == d.data.Length == a.size
      ensures fresh(t) && fresh(t.data) && t.Valid()
      ensures t.Geometry() == a.Geometry() && t.environment == a.environment && t.noiseGenerator == a.noiseGenerator
      ensures t.data[..] == PickedHeights(MergePicks(a.data[..], b.data[..], c.data[..], d.data[..]))
      ensures t.surfaceData == PickedColors(MergePicks(a.data[..], b.data[..], c.data[..], d.data[..]),
                                            a.surfaceData, b.surfaceData, c.surfaceData, d.surfaceData)
    {
      t := Blank(a, host);
      t.FillMerged(a.data, b.data, c.data, d.data, a.surfaceData, b.surfaceData, c.surfaceData, d.surfaceData);
    }

    /** mutate: a new unmapped tile with a's options whose every cell takes the
        bilinear height of interpolate and the colour of the first tile, in order a,
        b, c, d, whose weighted height lies nearest that height. */
    static method Mutate(a: Terrain, b: Terrain, c: Terrain, d: Terrain, host: Host) returns (t: Terrain)
      requires a.Valid() && a.environment.Some?
      requires b.data.Length == c.data.Length == d.data.Length == a.size
      ensures fresh(t) && fresh(t.data) && t.Valid()
      ensures t.Geometry() == a.Geometry() && t.environment == a.environment && t.noiseGenerator == a.noiseGenerator
      ensures t.data[..] == PickedHeights(MutatePicks(a.data[..], b.data[..], c.data[..], d.data[..], a.width, a.depth))
      ensures t.surfaceData == PickedColors(MutatePicks(a.data[..], b.data[..], c.data[..], d.data[..], a.width, a.depth),
                                            a.surfaceData, b.surfaceData, c.surfaceData, d.surfaceData)
    {
      t := Blank(a, host);
      t.FillMutated(a.data, b.data, c.data, d.data, a.surfaceData, b.surfaceData, c.surfaceData, d.surfaceData);
    }

    /** stitch: blends the first `margin` rows (Top) or columns (Left) of source
        towards the mirrored cells of target, line by line, with the falloff weight
        of the line; target may be source itself. */
    static method Stitch(source: Terrain, target: Terrain, side: StitchSide, host: Host)
      requires source.Valid() && source.data.Length == source.size && target.data.Length == source.size
      requires SideMargin(side, source.width, source.depth) != 1
      modifies source.data, source`surfaceData
      ensures source.data[..] == StitchHeights(side, old(source.data[..]), old(target.data[..]), source.width, source.depth)
      ensures source.surfaceData == StitchColors(side, old(source.surfaceData), old(target.surfaceData), source.width, source.depth, host)
    {
      ghost var src, tgt := source.data[..], target.data[..];
      ghost var srcColors, tgtColors := source.surfaceData, target.surfaceData;
      var margin := SideMargin(side, source.width, source.depth);
      var k := 0;
      while k < margin
        invariant k <= margin
        invariant StitchedUpTo(source, target, side, k, 0, host, src, tgt, srcColors, tgtColors)
      {
        var weight := StitchWeight(k, margin);
        StitchLine(source, target, side, k, weight, host, src, tgt, srcColors, tgtColors);
        k := k + 1;
      }
      StitchedComplete(side, src, tgt, srcColors, tgtColors, source.width, source.depth, host);
    }

    /** One row (Top) or column (Left) k of stitch, blended with the line's weight. */
    static method StitchLine(source: Terrain, target: Terrain, side: StitchSide, k: nat, weight: real, host: Host,
                             ghost src: seq<real>, ghost tgt: seq<real>,
                             ghost srcColors: map<nat, Color>, ghost tgtColors: map<nat, Color>)
      requires StitchedUpTo(source, target, side, k, 0, host, src, tgt, srcColors, tgtColors)
      requires k < SideMargin(side, source.width, source.depth)
      requires weight == StitchWeight(k, SideMargin(side, source.width, source.depth))
      modifies source.data, source`surfaceData
      ensures StitchedUpTo(source, target, side, k + 1, 0, host, src, tgt, srcColors, tgtColors)
    {
      var width, depth := source.width, source.depth;
      var edge := EdgeLength(side, width, depth);
      var t := 0;
      while t < edge
        invariant t <= edge
        invariant StitchedUpTo(source, target, side, k, t, host, src, tgt, srcColors, tgtColors)
      {
        StitchCell(source, target, side, k, t, weight, host, src, tgt, srcColors, tgtColors);
        t := t + 1;
      }
    }

    /** Cell t of line k of stitch: its height and colour are lerped towards the
        mirrored target cell's with the line's weight. */
    static method StitchCell(source: Terrain, target: Terrain, side: StitchSide, k: nat, t: nat, weight: real, host: Host,
                             ghost src: seq<real>, ghost tgt: seq<real>,
                             ghost srcColors: map<nat, Color>, ghost tgtColors: map<nat, Color>)
      requires StitchedUpTo(source, target, side, k, t, host, src, tgt, srcColors, tgtColors)
      requires k < SideMargin(side, source.width, source.depth) && t < EdgeLength(side, source.width, source.depth)
      requires weight == StitchWeight(k, SideMargin(side, source.width, source.depth))
      modifies source.data, source`surfaceData
      ensures StitchedUpTo(source, target, side, k, t + 1, host, src, tgt, srcColors, tgtColors)
    {
      var width, depth := source.width, source.depth;
      var j := EdgeCell(side, k, t, width);
      StitchCellUntouched(side, src, tgt, srcColors, tgtColors, k, t, width, depth, host);
      var i := MirrorCell(side, j, width, depth);
      var sourceData := source.data[j];
      var targetData := target.data[i];
      var sourceColor := ColorAt(source.surfaceData, j);
      var targetColor := ColorAt(target.surfaceData, i);
      source.data[j] := Lerp(sourceData, targetData, weight);
      source.surfaceData := source.surfaceData[j := host.lerpColor(sourceColor, targetColor, weight)];
    }

    /** create: exactly four environments, else the error; otherwise one tile per
        environment, all with the caller's options, and mutate of the four. The
        caller's skipInitialEnvironmentMapping reaches the four constructors: when it
        is set, the four tiles are blank and so is their mutate. */
    static method Create(options: Options, skipEnvironmentMapping: bool, environments: seq<Environment>, host: Host)
      returns (r: Result<Terrain, string>)
      requires options.width > 0 && options.depth > 0
      requires |environments| == 4 && !skipEnvironmentMapping ==>
        forall i :: 0 <= i < 4 ==> Mappable(environments[i], GridOf(options), GeneratorOf(options, host), host)
      ensures |environments| != 4 ==> r == Failure("Must have exactly 4 environments")
      ensures |environments| == 4 ==>
        r.Success? && fresh(r.value) && r.value.Valid() &&
        r.value.Geometry() == GridOf(options) && r.value.environment == Some(environments[0])
      ensures |environments| == 4 && !skipEnvironmentMapping ==>
        r.Success? &&
        r.value.noiseGenerator == Some(GeneratorOf(options, host)) &&
        Surface(r.value.data[..], r.value.surfaceData) == MutatedSurface(
          EnvironmentSurface(environments[0], GridOf(options), GeneratorOf(options, host), host),
          EnvironmentSurface(environments[1], GridOf(options), GeneratorOf(options, host), host),
          EnvironmentSurface(environments[2], GridOf(options), GeneratorOf(options, host), host),
          EnvironmentSurface(environments[3], GridOf(options), GeneratorOf(options, host), host),
          options.width, options.depth)
      ensures |environments| == 4 && skipEnvironmentMapping ==>
        r.Success? &&
        r.value.noiseGenerator == options.noiseGenerator &&
        Surface(r.value.data[..], r.value.surfaceData) == MutatedSurface(
          BlankSurface(GridOf(options).Size()), BlankSurface(GridOf(options).Size()),
          BlankSurface(GridOf(options).Size()), BlankSurface(GridOf(options).Size()),
          options.width, options.depth) &&
        Surface(r.value.data[..], r.value.surfaceData) == BlankSurface(GridOf(options).Size())
    {
      if |environments| != 4 {
        return Failure("Must have exactly 4 environments");
      }
      var a := NewTile(options, environments[0], skipEnvironmentMapping, host);
      var b := NewTile(options, environments[1], skipEnvironmentMapping, host);
      var c := NewTile(options, environments[2], skipEnvironmentMapping, host);
      var d := NewTile(options, environments[3], skipEnvironmentMapping, host);
      if skipEnvironmentMapping {
        MutateOfBlankTiles(options.width, options.depth);
      }
      var t := Mutate(a, b, c, d, host);
      r := Success(t);
    }

    /** One of create's four tiles: the caller's options with environment env. */
    static method NewTile(options: Options, env: Environment, skipEnvironmentMapping: bool, host: Host) returns (t: Terrain)
      requires options.width > 0 && options.depth > 0
      requires !skipEnvironmentMapping ==> Mappable(env, GridOf(options), GeneratorOf(options, host), host)
      ensures fresh(t) && fresh(t.data) && t.Valid() && t.data.Length == t.size
      ensures t.Geometry() == GridOf(options) && t.environment == Some(env)
      ensures t.noiseGenerator == if skipEnvironmentMapping then options.noiseGenerator else Some(GeneratorOf(options, host))
      ensures Surface(t.data[..], t.surfaceData)
           == if skipEnvironmentMapping then BlankSurface(GridOf(options).Size())
              else EnvironmentSurface(env, GridOf(options), GeneratorOf(options, host), host)
    {
      t := new Terrain(options.(environment := Some(env)), skipEnvironmentMapping, host);
      if skipEnvironmentMapping {
        assert t.data[..] == BlankSurface(GridOf(options).Size()).data;
      }
    }
  }
}
