/** What each texture and colour callback tag computes, dispatching to the biome
    that declares it. Texture callbacks see (height buffer, flat index, x, y);
    colour callbacks see (height buffer, normalised height, flat index, width). */
module Callbacks {
  import opened Environments
  import Bluffs
  import MountainousEverglades
  import TestTerrain

  /** The number a texture callback returns for cell j at grid position (x, y). */
  function ApplyTexture(cb: TextureCallback, data: seq<real>, j: nat, x: nat, y: nat, host: Host): (r: real)
    requires j < |data|
    ensures cb.Identity? ==> r == data[j]
    ensures cb.FloorToFive? ==> r <= data[j] < r + 5.0
    ensures cb.Stripe? && data[j] >= 0.0 ==> 0.95 * data[j] <= r <= data[j]
    ensures cb.Wave? ==> r >= data[j]
  {
    match cb
    case Identity => data[j]
    case FloorToFive => Bluffs.Terrace(data[j])
    case Stripe(striped) => TestTerrain.StripeValue(data[j], j, striped)
    case Ripple(z) => MountainousEverglades.RippleValue(data[j], x as real, y as real, z, host)
    case Wave => MountainousEverglades.WaveValue(data[j], x as real, y as real, host)
  }

  /** The colour a colour callback returns for cell j of a tile `width` cells wide. */
  function ApplyColor(cb: ColorCallback, data: seq<real>, j: nat, width: nat, host: Host): (r: Color)
    requires width > 0
    ensures cb.Constant? ==> r == cb.rgb
    ensures cb.Slope? ==> r == [80, 69, 67] || r == [0, 128, 0] || r == [65, 71, 74]
  {
    match cb
    case Constant(rgb) => rgb
    case Slope => MountainousEverglades.SlopeColor(data, j, width, host)
  }
}
