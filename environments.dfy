/** The data contract every biome fills in: ordered colour rules, texture rules and
    terrain layers, each keyed by a threshold range, plus an optional water level.
    Callbacks are tagged variants; module Callbacks gives each tag its meaning. */
module Environments {
  import opened Wrappers

  /** An RGB triplet as the callbacks return it (a list of numbers; the engine
      never clamps its channels). */
  type Color = seq<int>

  /** A normalised height as the engine computes it: a number in [0,1], or NaN when
      a zero height is divided by a zero running maximum. */
  datatype Level = Finite(value: real) | NaN

  /** Exactly five numbers: the half-open noise band, the height budget, the
      intensity scale and the intensity exponent. */
  datatype TerrainLayer = TerrainLayer(
    minThreshold: real,
    maxThreshold: real,
    mapHeight: real,
    mapScale: real,
    mapPower: real)

  /** The texture callbacks the biomes declare, each mapping
      (height buffer, flat index, x, y) to one number. */
  datatype TextureCallback =
    | Identity            // (data, j) => data[j]
    | FloorToFive         // Bluffs: Math.floor(data[j] / 5) * 5
    | Stripe(striped: bool) // TestTerrain's surface function
    | Ripple(z: real)     // MountainousEverglades' first texture, z drawn at construction
    | Wave                // MountainousEverglades' second texture

  datatype SurfaceTexture = SurfaceTexture(
    minThreshold: real,
    maxThreshold: real,
    callback: TextureCallback)

  /** The colour callbacks the biomes declare, each mapping
      (height buffer, normalised height, flat index, width) to a list of numbers. */
  datatype ColorCallback =
    | Constant(rgb: Color) // () => [r, g, b]
    | Slope                // MountainousEverglades' gradient-direction colour

  datatype SurfaceColor = SurfaceColor(
    minThreshold: real,
    maxThreshold: real,
    callback: ColorCallback)

  /** Three ordered rule lists plus an optional water level. */
  datatype Environment = Environment(
    surfaceColors: seq<SurfaceColor>,
    surfaceTextures: seq<SurfaceTexture>,
    terrainLayers: seq<TerrainLayer>,
    waterLevel: Option<real>)

  /** State of the scalar smoothing filter carried from cell to cell. */
  datatype FilterState = Unset | Estimate(x: real, cov: real)

  /** Functions the platform or an external library supplies and that the model
      leaves uninterpreted: Math.pow with a table exponent, Math.sin, Math.cos,
      Math.PI, the coherent-noise function, the direction (atan2) of a height
      gradient, MathHelper.lerpColor, one step of the kalmanjs filter, and the
      default noise generator a tile creates when it was given none. */
  datatype Host = Host(
    pow: (real, real) -> real,
    sin: real -> real,
    cos: real -> real,
    pi: real,
    perlin: (real, real, real) -> real,
    gradientAngle: (real, real) -> real,
    lerpColor: (Option<Color>, Option<Color>, real) -> Color,
    filter: (FilterState, real, real) -> (FilterState, real),
    defaultNoise: (real, real) -> real)

  /** Math.sin and Math.cos stay within [-1, 1]. */
  ghost predicate TrigBounded(host: Host) {
    forall t :: -1.0 <= host.sin(t) <= 1.0 && -1.0 <= host.cos(t) <= 1.0
  }

  /** Math.pow of a base in [0,1) to a positive exponent stays in [0,1). */
  ghost predicate PowOnUnit(pow: (real, real) -> real) {
    forall t, e :: 0.0 <= t < 1.0 && e > 0.0 ==> 0.0 <= pow(t, e) < 1.0
  }
}
