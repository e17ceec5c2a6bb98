/** Per-cell formulas of the tile combinators (src/Terrain.ts, interpolate, merge,
    mutate and stitch): blend weights, bilinear blending, the tallest-wins pick, the
    nearest-weighted-corner pick and the stitch falloff. Corners are numbered
    0 = a, 1 = b (top row), 2 = c, 3 = d (bottom row). */
module TileCells {
  import opened Wrappers
  import opened RealMath
  import opened Environments

  /** The colour stored for a cell, if any (the colour buffer is sparse). */
  function ColorAt(surface: map<nat, Color>, j: nat): Option<Color> {
    if j in surface then Some(surface[j]) else None
  }

  /** The weight of grid coordinate i on a side of n cells:
      `Math.max(0, Math.min(1, Math.pow(i / n, 2)))`. */
  function EaseWeight(i: nat, n: nat): (r: real)
    requires i < n
    ensures 0.0 <= r < 1.0
    ensures i == 0 ==> r == 0.0
  {
    var u := i as real / n as real;
    assert 0.0 <= u < 1.0;
    Clamp01(Square(u))
  }

  /** Weights grow along the axis: a farther cell leans more towards b, c and d. */
  lemma EaseWeightMonotone(i: nat, k: nat, n: nat)
    requires i <= k < n
    ensures EaseWeight(i, n) <= EaseWeight(k, n)
  {
    var u := i as real / n as real;
    var v := k as real / n as real;
    assert u <= v;
    assert 0.0 <= u;
    SquareMonotone(u, v);
  }

  lemma SquareMonotone(q: real, p: real)
    requires 0.0 <= q <= p
    ensures Square(q) <= Square(p)
  {
    ProductMonotone(q, p);
  }

  lemma ProductMonotone(q: real, p: real)
    requires 0.0 <= q <= p
    ensures q * q <= p * p
  {
    ScaleMonotone(q, p, q);
    ScaleMonotone(q, p, p);
  }

  lemma ScaleMonotone(a: real, b: real, c: real)
    requires a <= b && 0.0 <= c
    ensures a * c <= b * c && c * a <= c * b
  {
  }

  function Max4(a: real, b: real, c: real, d: real): real { Max(Max(a, b), Max(c, d)) }

  function Min4(a: real, b: real, c: real, d: real): real { Min(Min(a, b), Min(c, d)) }

  /** `lerp(lerp(a, b, hw), lerp(c, d, hw), vw)`: the height interpolate and mutate give. */
  function Bilinear(ha: real, hb: real, hc: real, hd: real, hw: real, vw: real): (r: real)
    ensures 0.0 <= hw <= 1.0 && 0.0 <= vw <= 1.0 ==> Min4(ha, hb, hc, hd) <= r <= Max4(ha, hb, hc, hd)
    ensures ha == hb == hc == hd ==> r == ha
    ensures hw == 0.0 && vw == 0.0 ==> r == ha
  {
    Lerp(Lerp(ha, hb, hw), Lerp(hc, hd, hw), vw)
  }

  /** A cell's pick: the new height and which corner's colour it copies. */
  datatype Pick = Pick(height: real, corner: Option<nat>)

  /** merge: the tallest of the four heights; the colour comes from the first corner,
      in order a, b, c, d, whose height equals it. */
  function MergeCell(ha: real, hb: real, hc: real, hd: real): (r: Pick)
    ensures var hs := [ha, hb, hc, hd];
      && (forall i :: 0 <= i < 4 ==> hs[i] <= r.height)
      && r.corner.Some? && r.corner.value < 4 && hs[r.corner.value] == r.height
      && (forall i :: 0 <= i < r.corner.value ==> hs[i] != r.height)
  {
    var m := Max4(ha, hb, hc, hd);
    Pick(m, if ha == m then Some(0) else if hb == m then Some(1)
            else if hc == m then Some(2) else if hd == m then Some(3) else None)
  }

  /** The weight mutate gives each corner's own height: the product of its
      horizontal and vertical bilinear weights. */
  function CornerWeights(hw: real, vw: real): seq<real> {
    [(1.0 - hw) * (1.0 - vw), hw * (1.0 - vw), (1.0 - hw) * vw, hw * vw]
  }

  function Abs(x: real): real { if x < 0.0 then -x else x }

  /** `|target - h * weight|` for each corner. */
  function CornerDistances(target: real, ha: real, hb: real, hc: real, hd: real, hw: real, vw: real): (r: seq<real>)
    ensures |r| == 4
  {
    [Abs(target - ha * (1.0 - hw) * (1.0 - vw)),
     Abs(target - hb * hw * (1.0 - vw)),
     Abs(target - hc * (1.0 - hw) * vw),
     Abs(target - hd * hw * vw)]
  }

  /** mutate: the bilinear height of interpolate; the colour comes from the first
      corner, in order a, b, c, d, whose weighted height is nearest that target. */
  function MutateCell(ha: real, hb: real, hc: real, hd: real, hw: real, vw: real): (r: Pick)
    ensures r.height == Bilinear(ha, hb, hc, hd, hw, vw)
    ensures var ds := CornerDistances(r.height, ha, hb, hc, hd, hw, vw);
      && r.corner.Some? && r.corner.value < 4
      && (forall i :: 0 <= i < 4 ==> ds[r.corner.value] <= ds[i])
      && (forall i :: 0 <= i < r.corner.value ==> ds[i] != ds[r.corner.value])
  {
    var target := Bilinear(ha, hb, hc, hd, hw, vw);
    var ds := CornerDistances(target, ha, hb, hc, hd, hw, vw);
    var m := Min4(ds[0], ds[1], ds[2], ds[3]);
    Pick(target, if ds[0] == m then Some(0) else if ds[1] == m then Some(1)
                 else if ds[2] == m then Some(2) else if ds[3] == m then Some(3) else None)
  }

  /** The colour a pick copies from the four corners' colours. */
  function PickedColor(p: Pick, ca: Option<Color>, cb: Option<Color>, cc: Option<Color>, cd: Option<Color>): Option<Color> {
    match p.corner
    case None => None
    case Some(i) => if i < 4 then [ca, cb, cc, cd][i] else None
  }

  /** Four identical inputs: merge keeps the height and takes corner a. */
  lemma MergeCellOfIdentical(h: real)
    ensures MergeCell(h, h, h, h) == Pick(h, Some(0))
  {
  }

  /** Four identical inputs: mutate keeps the height, whatever the weights, and the
      copied colour is the common one. */
  lemma MutateCellOfIdentical(h: real, hw: real, vw: real, c: Option<Color>)
    ensures MutateCell(h, h, h, h, hw, vw).height == h
    ensures PickedColor(MutateCell(h, h, h, h, hw, vw), c, c, c, c) == c
  {
    var p := MutateCell(h, h, h, h, hw, vw);
    assert p.corner.Some? && p.corner.value < 4;
  }

  // ---------------------------------------------------------------- stitch

  /** The stitch margin of a side of n cells: a twentieth of it, rounded down. */
  function Margin(n: nat): nat {
    n / 20
  }

  /** The margin is the source's `(n * 0.05) | 0`: for a non-negative length, the
      int32 truncation of n * 0.05 is its floor. */
  lemma MarginIsTruncatedTwentieth(n: nat)
    ensures Margin(n) == (n as real * 0.05).Floor
  {
    var q := n / 20;
    assert q as real * 20.0 <= n as real < (q + 1) as real * 20.0;
  }

  /** The falloff `(1 - k / (m - 1))^2` of row or column k of an m-cell margin. */
  function StitchWeight(k: nat, m: nat): (r: real)
    requires 2 <= m && k < m
    ensures 0.0 <= r <= 1.0
    ensures k == 0 ==> r == 1.0
    ensures k == m - 1 ==> r == 0.0
  {
    var step := MarginStep(k, m);
    Square(1.0 - step)
  }

  /** How far row or column k lies into the margin, `(1 / (m - 1)) * k`. */
  function MarginStep(k: nat, m: nat): (s: real)
    requires 2 <= m && k < m
    ensures 0.0 <= s <= 1.0
    ensures k == 0 ==> s == 0.0
    ensures k == m - 1 ==> s == 1.0
  {
    var d := (m - 1) as real;
    UnitFraction(d, k as real);
    (1.0 / d) * k as real
  }

  /** For d >= 1, the fraction (1 / d) * a of 0 <= a <= d lies in [0, 1]. */
  lemma UnitFraction(d: real, a: real)
    requires 1.0 <= d
    ensures 0.0 <= a <= d ==> 0.0 <= (1.0 / d) * a <= 1.0
    ensures (1.0 / d) * d == 1.0
  {
    var u := 1.0 / d;
    assert u * d == 1.0;
    assert 0.0 < u;
    if 0.0 <= a <= d {
      ScaleMonotone(a, d, u);
      ScaleMonotone(0.0, a, u);
    }
  }

  /** The falloff never increases from the edge inwards. */
  lemma StitchWeightDecreasing(k: nat, l: nat, m: nat)
    requires 2 <= m && k <= l < m
    ensures StitchWeight(l, m) <= StitchWeight(k, m)
  {
    var d := (m - 1) as real;
    UnitFraction(d, k as real);
    ScaleMonotone(k as real, l as real, 1.0 / d);
    var p := 1.0 - MarginStep(k, m);
    var q := 1.0 - MarginStep(l, m);
    assert 0.0 <= q <= p;
    SquareMonotone(q, p);
  }

  // ---------------------------------------------------------------- whole tiles

  /** Flat index j of a width x depth tile has column j % width and row j / width. */
  lemma RowInRange(j: nat, width: nat, depth: nat)
    requires width > 0 && j < width * depth
    ensures j / width < depth
  {
  }

  /** The horizontal blend weight of cell j, `clamp01((x / width)^2)`. */
  function HorizontalWeight(j: nat, width: nat): (r: real)
    requires width > 0
    ensures 0.0 <= r < 1.0
  {
    EaseWeight(j % width, width)
  }

  /** The vertical blend weight of cell j, `clamp01((y / depth)^2)`. */
  function VerticalWeight(j: nat, width: nat, depth: nat): (r: real)
    requires width > 0 && j < width * depth
    ensures 0.0 <= r < 1.0
  {
    RowInRange(j, width, depth);
    EaseWeight(j / width, depth)
  }

  /** The heights interpolate (and mutate) give: the bilinear blend of the four
      corner tiles, cell by cell. */
  function BlendHeights(a: seq<real>, b: seq<real>, c: seq<real>, d: seq<real>, width: nat, depth: nat): (r: seq<real>)
    requires width > 0 && |a| == |b| == |c| == |d| == width * depth
    ensures |r| == width * depth
    ensures forall j :: 0 <= j < |r| ==> Min4(a[j], b[j], c[j], d[j]) <= r[j] <= Max4(a[j], b[j], c[j], d[j])
    ensures a == b == c == d ==> r == a
    ensures |r| > 0 ==> r[0] == a[0]
  {
    seq(width * depth, j requires 0 <= j < width * depth =>
      Bilinear(a[j], b[j], c[j], d[j], HorizontalWeight(j, width), VerticalWeight(j, width, depth)))
  }

  /** interpolate's colours: every cell gets the colour-lerp of the four corners'
      colours (absent ones passed as absent) with the same weights. */
  function BlendColors(ca: map<nat, Color>, cb: map<nat, Color>, cc: map<nat, Color>, cd: map<nat, Color>,
                       width: nat, depth: nat, host: Host): (r: map<nat, Color>)
    requires width > 0
    ensures forall j: nat :: j in r <==> j < width * depth
  {
    map j: nat | j < width * depth :: BlendColor(ca, cb, cc, cd, j, width, depth, host)
  }

  /** The colour interpolate gives cell j. */
  function BlendColor(ca: map<nat, Color>, cb: map<nat, Color>, cc: map<nat, Color>, cd: map<nat, Color>,
                      j: nat, width: nat, depth: nat, host: Host): Color
    requires width > 0 && j < width * depth
  {
    host.lerpColor(
      Some(host.lerpColor(ColorAt(ca, j), ColorAt(cb, j), HorizontalWeight(j, width))),
      Some(host.lerpColor(ColorAt(cc, j), ColorAt(cd, j), HorizontalWeight(j, width))),
      VerticalWeight(j, width, depth))
  }

  /** A colour buffer restricted to the cells of a tile. */
  function Within(cs: map<nat, Color>, n: nat): (r: map<nat, Color>)
    ensures forall j :: j in r <==> j in cs && j < n
    ensures forall j :: j in r ==> r[j] == cs[j]
  {
    map j | j in cs && j < n :: cs[j]
  }

  /** The colours of a per-cell pick: each cell copies the picked corner's colour,
      and has none when that corner has none. */
  function PickedColors(picks: seq<Pick>, ca: map<nat, Color>, cb: map<nat, Color>, cc: map<nat, Color>,
                        cd: map<nat, Color>): (r: map<nat, Color>)
    ensures forall j :: 0 <= j < |picks| ==> ColorAt(r, j) == PickedColor(picks[j], ColorAt(ca, j), ColorAt(cb, j), ColorAt(cc, j), ColorAt(cd, j))
    ensures forall j :: j in r ==> j < |picks|
  {
    map j: nat | j < |picks| && PickedColor(picks[j], ColorAt(ca, j), ColorAt(cb, j), ColorAt(cc, j), ColorAt(cd, j)).Some? ::
      PickedColor(picks[j], ColorAt(ca, j), ColorAt(cb, j), ColorAt(cc, j), ColorAt(cd, j)).value
  }

  /** Colour buffers that agree on every cell are equal. */
  lemma ColorsExtensional(m1: map<nat, Color>, m2: map<nat, Color>)
    requires forall k: nat :: ColorAt(m1, k) == ColorAt(m2, k)
    ensures m1 == m2
  {
    assert forall k: nat :: k in m1 <==> k in m2 by {
      forall k: nat ensures k in m1 <==> k in m2 {
        assert ColorAt(m1, k) == ColorAt(m2, k);
      }
    }
    forall k: nat | k in m1 ensures m1[k] == m2[k] {
      assert ColorAt(m1, k) == ColorAt(m2, k);
    }
  }

  /** A colour buffer filled up to cell n: it agrees with `colors` below n and
      holds nothing from n on. */
  predicate FilledBelow(m: map<nat, Color>, colors: map<nat, Color>, n: nat) {
    (forall k: nat :: k in m ==> k < n) &&
    (forall k: nat :: k < n ==> ColorAt(m, k) == ColorAt(colors, k))
  }

  /** Storing an optional colour for cell j (nothing is stored for an absent one). */
  function WithColor(m: map<nat, Color>, j: nat, c: Option<Color>): (r: map<nat, Color>)
    ensures ColorAt(r, j) == c || (c.None? && ColorAt(r, j) == ColorAt(m, j))
    ensures forall k: nat :: k != j ==> ColorAt(r, k) == ColorAt(m, k)
  {
    if c.Some? then m[j := c.value] else m
  }

  /** Storing cell n's colour extends a fill by one cell. */
  lemma FilledBelowStep(m: map<nat, Color>, colors: map<nat, Color>, n: nat)
    requires FilledBelow(m, colors, n)
    ensures FilledBelow(WithColor(m, n, ColorAt(colors, n)), colors, n + 1)
  {
    var r := WithColor(m, n, ColorAt(colors, n));
    forall k: nat | k in r ensures k < n + 1 {
      if k != n {
        assert ColorAt(r, k) == ColorAt(m, k);
      }
    }
  }

  /** A fill that has reached every cell `colors` has is `colors` itself. */
  lemma FilledBelowAll(m: map<nat, Color>, colors: map<nat, Color>, n: nat)
    requires FilledBelow(m, colors, n)
    requires forall k: nat :: k in colors ==> k < n
    ensures m == colors
  {
    forall k: nat ensures ColorAt(m, k) == ColorAt(colors, k) {
      if k >= n {
        assert k !in m && k !in colors;
      }
    }
    ColorsExtensional(m, colors);
  }

  /** One more cell of a sequence prefix. */
  lemma PrefixStep(s: seq<real>, h: seq<real>, j: nat)
    requires j < |s| && j < |h| && s[..j] == h[..j] && s[j] == h[j]
    ensures s[..j + 1] == h[..j + 1]
  {
    assert s[..j + 1] == s[..j] + [s[j]];
    assert h[..j + 1] == h[..j] + [h[j]];
  }

  /** merge's per-cell picks. */
  function MergePicks(a: seq<real>, b: seq<real>, c: seq<real>, d: seq<real>): (r: seq<Pick>)
    requires |a| == |b| == |c| == |d|
    ensures |r| == |a|
    ensures forall j :: 0 <= j < |r| ==> r[j] == MergeCell(a[j], b[j], c[j], d[j])
  {
    seq(|a|, j requires 0 <= j < |a| => MergeCell(a[j], b[j], c[j], d[j]))
  }

  /** mutate's per-cell picks. */
  function MutatePicks(a: seq<real>, b: seq<real>, c: seq<real>, d: seq<real>, width: nat, depth: nat): (r: seq<Pick>)
    requires width > 0 && |a| == |b| == |c| == |d| == width * depth
    ensures |r| == |a|
    ensures forall j :: 0 <= j < |r| ==>
      r[j] == MutateCell(a[j], b[j], c[j], d[j], HorizontalWeight(j, width), VerticalWeight(j, width, depth))
  {
    seq(width * depth, j requires 0 <= j < width * depth =>
      MutateCell(a[j], b[j], c[j], d[j], HorizontalWeight(j, width), VerticalWeight(j, width, depth)))
  }

  /** The heights of a sequence of picks. */
  function PickedHeights(picks: seq<Pick>): (r: seq<real>)
    ensures |r| == |picks|
    ensures forall j :: 0 <= j < |r| ==> r[j] == picks[j].height
  {
    seq(|picks|, j requires 0 <= j < |picks| => picks[j].height)
  }

  /** mutate's heights are interpolate's. */
  lemma MutateHeightsAreBlended(a: seq<real>, b: seq<real>, c: seq<real>, d: seq<real>, width: nat, depth: nat)
    requires width > 0 && |a| == |b| == |c| == |d| == width * depth
    ensures PickedHeights(MutatePicks(a, b, c, d, width, depth)) == BlendHeights(a, b, c, d, width, depth)
  {
  }

  /** Merging four copies of one tile gives the tile back, heights and colours. */
  lemma MergeOfIdenticalTiles(a: seq<real>, ca: map<nat, Color>)
    ensures PickedHeights(MergePicks(a, a, a, a)) == a
    ensures PickedColors(MergePicks(a, a, a, a), ca, ca, ca, ca) == Within(ca, |a|)
  {
    var picks := MergePicks(a, a, a, a);
    forall j | 0 <= j < |a| ensures picks[j] == Pick(a[j], Some(0)) {
      MergeCellOfIdentical(a[j]);
    }
    var r := PickedColors(picks, ca, ca, ca, ca);
    assert forall j :: j in r <==> j in Within(ca, |a|);
  }

  /** Mutating four copies of one tile gives the tile back, heights and colours. */
  lemma MutateOfIdenticalTiles(a: seq<real>, ca: map<nat, Color>, width: nat, depth: nat)
    requires width > 0 && |a| == width * depth
    ensures PickedHeights(MutatePicks(a, a, a, a, width, depth)) == a
    ensures PickedColors(MutatePicks(a, a, a, a, width, depth), ca, ca, ca, ca) == Within(ca, |a|)
  {
    var picks := MutatePicks(a, a, a, a, width, depth);
    forall j | 0 <= j < |a|
      ensures picks[j].height == a[j]
      ensures PickedColor(picks[j], ColorAt(ca, j), ColorAt(ca, j), ColorAt(ca, j), ColorAt(ca, j)) == ColorAt(ca, j)
    {
      MutateCellOfIdentical(a[j], HorizontalWeight(j, width), VerticalWeight(j, width, depth), ColorAt(ca, j));
    }
    var r := PickedColors(picks, ca, ca, ca, ca);
    assert forall j :: j in r <==> j in Within(ca, |a|);
  }

  // ---------------------------------------------------------------- whole-tile stitch

  /** Cell x + y * width of a width x depth tile lies in the buffer and has
      coordinates (x, y). */
  lemma CellIndex(x: nat, y: nat, width: nat, depth: nat)
    requires x < width && y < depth
    ensures x + y * width < width * depth
    ensures (x + y * width) % width == x && (x + y * width) / width == y
  {
    MulBelow(y, depth, width);
    var j := x + y * width;
    var q := j / width;
    var r := j % width;
    assert j == q * width + r && 0 <= r < width;
    assert (q - y) * width == x - r;
    if q > y {
      MulAtLeast(q - y, width);
    } else if q < y {
      MulAtLeast(y - q, width);
    }
  }

  lemma MulBelow(y: nat, depth: nat, width: nat)
    requires y < depth
    ensures (y + 1) * width <= depth * width
  {
  }

  lemma MulAtLeast(k: int, w: nat)
    requires k >= 1
    ensures k * w >= w
  {
  }

  /** The edge stitch blends: the first rows (Top) or the first columns (Left). */
  datatype StitchSide = Top | Left

  /** The margin: `(depth * 0.05) | 0` rows for Top, `(width * 0.05) | 0` columns for Left. */
  function SideMargin(side: StitchSide, width: nat, depth: nat): nat {
    Margin(if side == Top then depth else width)
  }

  /** How far cell j lies from the stitched edge: its row for Top, its column for Left. */
  function EdgeDistance(side: StitchSide, j: nat, width: nat): nat
    requires width > 0
  {
    if side == Top then j / width else j % width
  }

  /** Whether stitch rewrites cell j. */
  predicate InMargin(side: StitchSide, j: nat, width: nat, depth: nat)
    requires width > 0
  {
    j < width * depth && EdgeDistance(side, j, width) < SideMargin(side, width, depth)
  }

  /** The target cell that cell j blends towards: (x, depth - 1 - y) for Top and
      (width - 1 - x, y) for Left. */
  function MirrorCell(side: StitchSide, j: nat, width: nat, depth: nat): (i: nat)
    requires width > 0 && j < width * depth
    ensures i < width * depth
    ensures side == Top ==> i % width == j % width && i / width == depth - 1 - j / width
    ensures side == Left ==> i / width == j / width && i % width == width - 1 - j % width
  {
    if side == Top then MirrorRow(j, width, depth) else MirrorColumn(j, width, depth)
  }

  /** The cell in the same column and the mirrored row. */
  function MirrorRow(j: nat, width: nat, depth: nat): (i: nat)
    requires width > 0 && j < width * depth
    ensures i < width * depth
    ensures i % width == j % width && i / width == depth - 1 - j / width
  {
    RowInRange(j, width, depth);
    var x := j % width;
    var y := j / width;
    CellIndex(x, depth - 1 - y, width, depth);
    x + (depth - 1 - y) * width
  }

  /** The cell in the same row and the mirrored column. */
  function MirrorColumn(j: nat, width: nat, depth: nat): (i: nat)
    requires width > 0 && j < width * depth
    ensures i < width * depth
    ensures i / width == j / width && i % width == width - 1 - j % width
  {
    RowInRange(j, width, depth);
    var x := j % width;
    var y := j / width;
    CellIndex(width - 1 - x, y, width, depth);
    (width - 1 - x) + y * width
  }

  /** The mirrored cells lie outside the margin, so stitching a tile with itself
      only reads cells it does not write. */
  lemma MirrorOutsideMargin(side: StitchSide, j: nat, width: nat, depth: nat)
    requires width > 0 && InMargin(side, j, width, depth)
    ensures !InMargin(side, MirrorCell(side, j, width, depth), width, depth)
  {
    RowInRange(j, width, depth);
  }

  /** The falloff weight of a margin cell. */
  function EdgeWeight(side: StitchSide, j: nat, width: nat, depth: nat): (r: real)
    requires width > 0 && InMargin(side, j, width, depth) && SideMargin(side, width, depth) != 1
    ensures 0.0 <= r <= 1.0
  {
    StitchWeight(EdgeDistance(side, j, width), SideMargin(side, width, depth))
  }

  /** stitch's new source heights: margin cells lerp towards the mirrored target cell
      with the falloff weight; every other cell keeps its height. */
  function StitchHeights(side: StitchSide, src: seq<real>, tgt: seq<real>, width: nat, depth: nat): (r: seq<real>)
    requires width > 0 && |src| == |tgt| == width * depth && SideMargin(side, width, depth) != 1
    ensures |r| == |src|
    ensures forall j :: 0 <= j < |r| && !InMargin(side, j, width, depth) ==> r[j] == src[j]
    ensures forall j :: 0 <= j < |r| && InMargin(side, j, width, depth) ==>
      Min(src[j], tgt[MirrorCell(side, j, width, depth)]) <= r[j] <= Max(src[j], tgt[MirrorCell(side, j, width, depth)])
    ensures forall j :: 0 <= j < |r| && InMargin(side, j, width, depth) && EdgeDistance(side, j, width) == 0 ==>
      r[j] == tgt[MirrorCell(side, j, width, depth)]
    ensures forall j :: (0 <= j < |r| && InMargin(side, j, width, depth)
                         && EdgeDistance(side, j, width) == SideMargin(side, width, depth) - 1) ==> r[j] == src[j]
  {
    seq(|src|, j requires 0 <= j < |src| =>
      if InMargin(side, j, width, depth)
      then Lerp(src[j], tgt[MirrorCell(side, j, width, depth)], EdgeWeight(side, j, width, depth))
      else src[j])
  }

  /** stitch's new source colours: every margin cell gets the colour-lerp of its own
      and the mirrored target cell's colour; every other entry is kept. */
  function StitchColors(side: StitchSide, src: map<nat, Color>, tgt: map<nat, Color>, width: nat, depth: nat,
                        host: Host): (r: map<nat, Color>)
    requires width > 0 && SideMargin(side, width, depth) != 1
    ensures forall j: nat :: j in r <==> j in src || InMargin(side, j, width, depth)
    ensures forall j: nat :: InMargin(side, j, width, depth) ==>
      r[j] == host.lerpColor(ColorAt(src, j), ColorAt(tgt, MirrorCell(side, j, width, depth)), EdgeWeight(side, j, width, depth))
    ensures forall j: nat :: j in src && !InMargin(side, j, width, depth) ==> r[j] == src[j]
  {
    src + map j: nat | j < width * depth && InMargin(side, j, width, depth) :: StitchColor(side, src, tgt, j, width, depth, host)
  }

  /** The colour stitch gives margin cell j. */
  function StitchColor(side: StitchSide, src: map<nat, Color>, tgt: map<nat, Color>, j: nat, width: nat, depth: nat,
                       host: Host): Color
    requires width > 0 && InMargin(side, j, width, depth) && SideMargin(side, width, depth) != 1
  {
    host.lerpColor(ColorAt(src, j), ColorAt(tgt, MirrorCell(side, j, width, depth)), EdgeWeight(side, j, width, depth))
  }

  /** k < width * depth bounds the row k / width. */
  lemma MulAtLeastBound(k: nat, width: nat, depth: nat)
    requires width > 0 && k / width >= depth
    ensures k >= width * depth
  {
    assert k == k / width * width + k % width;
    assert k / width * width >= depth * width by {
      MulMonotone(depth, k / width, width);
    }
  }

  lemma MulMonotone(a: nat, b: nat, c: nat)
    requires a <= b
    ensures a * c <= b * c
  {
  }

  /** How far along the stitched edge cell j lies: its column for Top, its row for Left. */
  function EdgeOffset(side: StitchSide, j: nat, width: nat): nat
    requires width > 0
  {
    if side == Top then j % width else j / width
  }

  /** The number of cells along the stitched edge: a row for Top, a column for Left. */
  function EdgeLength(side: StitchSide, width: nat, depth: nat): nat {
    if side == Top then width else depth
  }

  /** The number of lines parallel to the stitched edge: rows for Top, columns for Left. */
  function LineCount(side: StitchSide, width: nat, depth: nat): nat {
    if side == Top then depth else width
  }

  /** Cell t of line k: `x + y * width` with (x, y) = (t, k) for Top and (k, t) for Left. */
  function EdgeCell(side: StitchSide, k: nat, t: nat, width: nat): nat {
    if side == Top then t + k * width else k + t * width
  }

  /** The cells stitch has rewritten when it reaches cell t of line k. */
  function Stitched(side: StitchSide, k: nat, t: nat, width: nat, depth: nat): (r: set<nat>)
    requires width > 0
    ensures k < SideMargin(side, width, depth) || (k == SideMargin(side, width, depth) && t == 0) ==>
      forall j :: j in r ==> InMargin(side, j, width, depth)
  {
    set j: nat | j < width * depth &&
      (EdgeDistance(side, j, width) < k || (EdgeDistance(side, j, width) == k && EdgeOffset(side, j, width) < t))
  }

  /** Cell t of line k is new when stitch reaches it, lies in the margin, and
      afterwards (at cell next = t + 1) it is rewritten. */
  lemma StitchedStep(side: StitchSide, k: nat, t: nat, next: nat, width: nat, depth: nat)
    requires width > 0 && next == t + 1
    requires k < SideMargin(side, width, depth) && t < EdgeLength(side, width, depth)
    ensures EdgeCell(side, k, t, width) < width * depth
    ensures EdgeDistance(side, EdgeCell(side, k, t, width), width) == k
    ensures InMargin(side, EdgeCell(side, k, t, width), width, depth)
    ensures EdgeCell(side, k, t, width) !in Stitched(side, k, t, width, depth)
    ensures Stitched(side, k, next, width, depth) == Stitched(side, k, t, width, depth) + {EdgeCell(side, k, t, width)}
  {
    var j := EdgeCell(side, k, t, width);
    EdgeCellIndex(side, k, t, width, depth);
    var s0 := Stitched(side, k, t, width, depth);
    var s1 := Stitched(side, k, next, width, depth);
    forall c: nat ensures c in s1 <==> c in s0 || c == j {
      if c in s1 && c !in s0 {
        CellDecompose(side, c, width);
      }
    }
  }

  /** Cell t of line k lies in the tile, on line k, at offset t. */
  lemma EdgeCellIndex(side: StitchSide, k: nat, t: nat, width: nat, depth: nat)
    requires width > 0 && k < LineCount(side, width, depth) && t < EdgeLength(side, width, depth)
    ensures EdgeCell(side, k, t, width) < width * depth
    ensures EdgeDistance(side, EdgeCell(side, k, t, width), width) == k
    ensures EdgeOffset(side, EdgeCell(side, k, t, width), width) == t
  {
    if side == Top {
      CellIndex(t, k, width, depth);
    } else {
      CellIndex(k, t, width, depth);
    }
  }

  /** Every cell is cell EdgeOffset of line EdgeDistance. */
  lemma CellDecompose(side: StitchSide, c: nat, width: nat)
    requires width > 0
    ensures c == EdgeCell(side, EdgeDistance(side, c, width), EdgeOffset(side, c, width), width)
  {
    assert c == c / width * width + c % width;
  }

  /** A finished line k - 1 leaves the same cells rewritten as the start of line k. */
  lemma StitchedNextLine(side: StitchSide, k: nat, width: nat, depth: nat)
    requires width > 0 && k > 0
    ensures Stitched(side, k - 1, EdgeLength(side, width, depth), width, depth) == Stitched(side, k, 0, width, depth)
  {
    forall c: nat | c < width * depth
      ensures EdgeOffset(side, c, width) < EdgeLength(side, width, depth)
    {
      if side == Left && c / width >= depth {
        MulAtLeastBound(c, width, depth);
      }
    }
  }

  /** The heights after stitch has rewritten the margin cells in `done`. */
  function StitchHeightsOn(side: StitchSide, src: seq<real>, tgt: seq<real>, done: set<nat>, width: nat, depth: nat): (r: seq<real>)
    requires width > 0 && |src| == |tgt| == width * depth && SideMargin(side, width, depth) != 1
    requires forall j :: j in done ==> InMargin(side, j, width, depth)
    ensures |r| == |src|
  {
    seq(|src|, j requires 0 <= j < |src| =>
      if j in done then StitchHeight(side, src, tgt, j, width, depth) else src[j])
  }

  /** The colour stitch leaves at cell c once it has rewritten the margin cells in
      `done`. */
  function StitchColorOn(side: StitchSide, src: map<nat, Color>, tgt: map<nat, Color>, done: set<nat>, c: nat,
                         width: nat, depth: nat, host: Host): Option<Color>
    requires width > 0 && SideMargin(side, width, depth) != 1
    requires forall j :: j in done ==> InMargin(side, j, width, depth)
  {
    if c in done then Some(StitchColor(side, src, tgt, c, width, depth, host)) else ColorAt(src, c)
  }


  /** The height stitch gives margin cell j. */
  function StitchHeight(side: StitchSide, src: seq<real>, tgt: seq<real>, j: nat, width: nat, depth: nat): real
    requires width > 0 && |src| == |tgt| == width * depth && SideMargin(side, width, depth) != 1
    requires InMargin(side, j, width, depth)
  {
    Lerp(src[j], tgt[MirrorCell(side, j, width, depth)], EdgeWeight(side, j, width, depth))
  }

  /** Rewriting one more margin cell j extends the heights by that cell. */
  lemma StitchHeightsOnStep(side: StitchSide, src: seq<real>, tgt: seq<real>, done: set<nat>, j: nat, width: nat, depth: nat)
    requires width > 0 && |src| == |tgt| == width * depth && SideMargin(side, width, depth) != 1
    requires forall c :: c in done ==> InMargin(side, c, width, depth)
    requires InMargin(side, j, width, depth)
    ensures StitchHeightsOn(side, src, tgt, done, width, depth)[j := StitchHeight(side, src, tgt, j, width, depth)]
      == StitchHeightsOn(side, src, tgt, done + {j}, width, depth)
  {
    var a := StitchHeightsOn(side, src, tgt, done, width, depth)[j := StitchHeight(side, src, tgt, j, width, depth)];
    var b := StitchHeightsOn(side, src, tgt, done + {j}, width, depth);
    forall c | 0 <= c < |a| ensures a[c] == b[c] {
    }
  }

    /** The cells Stitched reaches by the end of the margin are exactly the margin cells. */
  lemma StitchedAll(side: StitchSide, width: nat, depth: nat)
    requires width > 0
    ensures forall j: nat :: j in Stitched(side, SideMargin(side, width, depth), 0, width, depth) <==> InMargin(side, j, width, depth)
  {
  }

  /** With every margin cell rewritten, the heights are stitch's result. */
  lemma StitchHeightsOnAll(side: StitchSide, src: seq<real>, tgt: seq<real>, width: nat, depth: nat)
    requires width > 0 && |src| == |tgt| == width * depth && SideMargin(side, width, depth) != 1
    ensures StitchHeightsOn(side, src, tgt, Stitched(side, SideMargin(side, width, depth), 0, width, depth), width, depth)
      == StitchHeights(side, src, tgt, width, depth)
  {
    StitchedAll(side, width, depth);
    var a := StitchHeightsOn(side, src, tgt, Stitched(side, SideMargin(side, width, depth), 0, width, depth), width, depth);
    var b := StitchHeights(side, src, tgt, width, depth);
    forall c | 0 <= c < |a| ensures a[c] == b[c] {
    }
  }

  /** With every margin cell rewritten, the colours are stitch's result. */
  lemma StitchColorOnAll(side: StitchSide, src: map<nat, Color>, tgt: map<nat, Color>, width: nat, depth: nat, host: Host)
    requires width > 0 && SideMargin(side, width, depth) != 1
    ensures forall c: nat ::
      StitchColorOn(side, src, tgt, Stitched(side, SideMargin(side, width, depth), 0, width, depth), c, width, depth, host)
        == ColorAt(StitchColors(side, src, tgt, width, depth, host), c)
  {
    StitchedAll(side, width, depth);
  }


  /** One cell of stitch's order, for the heights: cell j = EdgeCell(k, t) and its
      mirror still hold their originals, and rewriting j extends the set of
      rewritten cells by j. */
  lemma StitchHeightsStep(side: StitchSide, src: seq<real>, tgt: seq<real>, k: nat, t: nat, next: nat, width: nat, depth: nat)
    requires width > 0 && |src| == |tgt| == width * depth && SideMargin(side, width, depth) != 1 && next == t + 1
    requires k < SideMargin(side, width, depth) && t < EdgeLength(side, width, depth)
    ensures EdgeCell(side, k, t, width) < width * depth
    ensures InMargin(side, EdgeCell(side, k, t, width), width, depth)
    ensures EdgeDistance(side, EdgeCell(side, k, t, width), width) == k
    ensures var j := EdgeCell(side, k, t, width);
      var i := MirrorCell(side, j, width, depth);
      var heights := StitchHeightsOn(side, src, tgt, Stitched(side, k, t, width, depth), width, depth);
      heights[j] == src[j] && heights[i] == src[i] &&
      heights[j := StitchHeight(side, src, tgt, j, width, depth)]
        == StitchHeightsOn(side, src, tgt, Stitched(side, k, next, width, depth), width, depth)
  {
    StitchedStep(side, k, t, next, width, depth);
    var j := EdgeCell(side, k, t, width);
    var done := Stitched(side, k, t, width, depth);
    MirrorOutsideMargin(side, j, width, depth);
    StitchHeightsOnStep(side, src, tgt, done, j, width, depth);
  }

    /** Where stitch can stand: before cell t of line k of the margin, or just past
      its last line. */
  predicate StitchPosition(side: StitchSide, k: nat, t: nat, width: nat, depth: nat) {
    (k < SideMargin(side, width, depth) && t <= EdgeLength(side, width, depth)) ||
    (k == SideMargin(side, width, depth) && t == 0)
  }

  /** The heights once stitch has rewritten, in its own order, every cell before
      cell t of line k. */
  function StitchedHeights(side: StitchSide, src: seq<real>, tgt: seq<real>, k: nat, t: nat, width: nat, depth: nat): (r: seq<real>)
    requires width > 0 && |src| == |tgt| == width * depth && SideMargin(side, width, depth) != 1
    requires StitchPosition(side, k, t, width, depth)
    ensures |r| == |src|
  {
    HeightsInOrder(side, src, tgt, k, t, width, depth)
  }

  /** StitchedHeights, one cell at a time. */
  function HeightsInOrder(side: StitchSide, src: seq<real>, tgt: seq<real>, k: nat, t: nat, width: nat, depth: nat): (r: seq<real>)
    requires width > 0 && |src| == |tgt| == width * depth && SideMargin(side, width, depth) != 1
    requires StitchPosition(side, k, t, width, depth)
    ensures |r| == |src|
    decreases k, t
  {
    if t == 0 then
      if k == 0 then src else HeightsInOrder(side, src, tgt, k - 1, EdgeLength(side, width, depth), width, depth)
    else
      StitchedStep(side, k, t - 1, t, width, depth);
      var j := EdgeCell(side, k, t - 1, width);
      HeightsInOrder(side, src, tgt, k, t - 1, width, depth)[j := StitchHeight(side, src, tgt, j, width, depth)]
  }

  /** The colours once stitch has rewritten, in its own order, every cell before
      cell t of line k. */
  function StitchedColors(side: StitchSide, src: map<nat, Color>, tgt: map<nat, Color>, k: nat, t: nat,
                          width: nat, depth: nat, host: Host): (r: map<nat, Color>)
    requires width > 0 && SideMargin(side, width, depth) != 1
    requires StitchPosition(side, k, t, width, depth)
  {
    ColorsInOrder(side, src, tgt, k, t, width, depth, host)
  }

  /** StitchedColors, one cell at a time. */
  function ColorsInOrder(side: StitchSide, src: map<nat, Color>, tgt: map<nat, Color>, k: nat, t: nat,
                         width: nat, depth: nat, host: Host): (r: map<nat, Color>)
    requires width > 0 && SideMargin(side, width, depth) != 1
    requires StitchPosition(side, k, t, width, depth)
    decreases k, t
  {
    if t == 0 then
      if k == 0 then src else ColorsInOrder(side, src, tgt, k - 1, EdgeLength(side, width, depth), width, depth, host)
    else
      StitchedStep(side, k, t - 1, t, width, depth);
      var j := EdgeCell(side, k, t - 1, width);
      ColorsInOrder(side, src, tgt, k, t - 1, width, depth, host)[j := StitchColor(side, src, tgt, j, width, depth, host)]
  }

  /** Before stitch starts, the heights are the originals. */
  lemma StitchedNothingHeights(side: StitchSide, src: seq<real>, tgt: seq<real>, width: nat, depth: nat)
    requires width > 0 && |src| == |tgt| == width * depth && SideMargin(side, width, depth) != 1
    ensures Stitched(side, 0, 0, width, depth) == {}
    ensures StitchHeightsOn(side, src, tgt, {}, width, depth) == src
  {
    var h := StitchHeightsOn(side, src, tgt, {}, width, depth);
    assert forall c | 0 <= c < |h| :: h[c] == src[c];
  }

  /** The position one cell back along line k. */
  lemma PositionBeforeCell(side: StitchSide, k: nat, t: nat, width: nat, depth: nat)
    requires StitchPosition(side, k, t, width, depth) && t > 0
    ensures StitchPosition(side, k, t - 1, width, depth)
    ensures k < SideMargin(side, width, depth) && t <= EdgeLength(side, width, depth)
  {
  }

  /** The position at the end of line k - 1. */
  lemma PositionBeforeLine(side: StitchSide, k: nat, width: nat, depth: nat)
    requires StitchPosition(side, k, 0, width, depth) && k > 0
    ensures StitchPosition(side, k - 1, EdgeLength(side, width, depth), width, depth)
    ensures k <= SideMargin(side, width, depth)
  {
  }

  /** Stitch's order rewrites exactly the cells of Stitched, in the heights and in
      the colours. */
  lemma StitchedMatches(side: StitchSide, src: seq<real>, tgt: seq<real>, srcColors: map<nat, Color>,
                        tgtColors: map<nat, Color>, k: nat, t: nat, width: nat, depth: nat, host: Host)
    requires width > 0 && |src| == |tgt| == width * depth && SideMargin(side, width, depth) != 1
    requires StitchPosition(side, k, t, width, depth)
    ensures StitchedHeights(side, src, tgt, k, t, width, depth)
      == StitchHeightsOn(side, src, tgt, Stitched(side, k, t, width, depth), width, depth)
    ensures forall c: nat ::
      ColorAt(StitchedColors(side, srcColors, tgtColors, k, t, width, depth, host), c)
        == StitchColorOn(side, srcColors, tgtColors, Stitched(side, k, t, width, depth), c, width, depth, host)
  {
    StitchedHeightsMatch(side, src, tgt, k, t, width, depth);
    StitchedColorsMatch(side, srcColors, tgtColors, k, t, width, depth, host);
  }

  /** The heights half of StitchedMatches, by induction along stitch's order. */
  lemma {:induction false} StitchedHeightsMatch(side: StitchSide, src: seq<real>, tgt: seq<real>,
                                                k: nat, t: nat, width: nat, depth: nat)
    requires width > 0 && |src| == |tgt| == width * depth && SideMargin(side, width, depth) != 1
    requires StitchPosition(side, k, t, width, depth)
    ensures StitchedHeights(side, src, tgt, k, t, width, depth)
      == StitchHeightsOn(side, src, tgt, Stitched(side, k, t, width, depth), width, depth)
    decreases k, t
  {
    if t == 0 {
      if k == 0 {
        StitchedNothingHeights(side, src, tgt, width, depth);
      } else {
        PositionBeforeLine(side, k, width, depth);
        StitchedHeightsMatch(side, src, tgt, k - 1, EdgeLength(side, width, depth), width, depth);
        StitchedNextLine(side, k, width, depth);
      }
    } else {
      PositionBeforeCell(side, k, t, width, depth);
      StitchedHeightsMatch(side, src, tgt, k, t - 1, width, depth);
      StitchedHeightsNextCell(side, src, tgt, k, t, width, depth);
    }
  }

  /** The colours half of StitchedMatches, cell by cell, by induction along
      stitch's order. */
  lemma {:induction false} StitchedColorsMatch(side: StitchSide, srcColors: map<nat, Color>, tgtColors: map<nat, Color>,
                                               k: nat, t: nat, width: nat, depth: nat, host: Host)
    requires width > 0 && SideMargin(side, width, depth) != 1
    requires StitchPosition(side, k, t, width, depth)
    ensures forall c: nat ::
      ColorAt(StitchedColors(side, srcColors, tgtColors, k, t, width, depth, host), c)
        == StitchColorOn(side, srcColors, tgtColors, Stitched(side, k, t, width, depth), c, width, depth, host)
    decreases k, t
  {
    if t == 0 {
      if k == 0 {
        assert Stitched(side, 0, 0, width, depth) == {};
      } else {
        PositionBeforeLine(side, k, width, depth);
        StitchedColorsMatch(side, srcColors, tgtColors, k - 1, EdgeLength(side, width, depth), width, depth, host);
        StitchedNextLine(side, k, width, depth);
      }
    } else {
      PositionBeforeCell(side, k, t, width, depth);
      StitchedColorsMatch(side, srcColors, tgtColors, k, t - 1, width, depth, host);
      StitchedColorsNextCell(side, srcColors, tgtColors, k, t - 1, t, width, depth, host);
    }
  }

  /** The heights step of StitchedMatches from cell t - 1 to cell t of line k. */
  lemma StitchedHeightsNextCell(side: StitchSide, src: seq<real>, tgt: seq<real>, k: nat, t: nat, width: nat, depth: nat)
    requires width > 0 && |src| == |tgt| == width * depth && SideMargin(side, width, depth) != 1
    requires StitchPosition(side, k, t, width, depth) && t > 0
    requires StitchedHeights(side, src, tgt, k, t - 1, width, depth)
      == StitchHeightsOn(side, src, tgt, Stitched(side, k, t - 1, width, depth), width, depth)
    ensures StitchedHeights(side, src, tgt, k, t, width, depth)
      == StitchHeightsOn(side, src, tgt, Stitched(side, k, t, width, depth), width, depth)
  {
    PositionBeforeCell(side, k, t, width, depth);
    var s := t - 1;
    StitchHeightsStep(side, src, tgt, k, s, t, width, depth);
    var j := EdgeCell(side, k, s, width);
    assert StitchedHeights(side, src, tgt, k, t, width, depth)
      == StitchedHeights(side, src, tgt, k, s, width, depth)[j := StitchHeight(side, src, tgt, j, width, depth)];
  }

  /** The colours step of StitchedMatches from cell t - 1 to cell t of line k. */
  lemma StitchedColorsNextCell(side: StitchSide, srcColors: map<nat, Color>, tgtColors: map<nat, Color>,
                               k: nat, s: nat, t: nat, width: nat, depth: nat, host: Host)
    requires width > 0 && SideMargin(side, width, depth) != 1
    requires StitchPosition(side, k, t, width, depth) && t == s + 1
    requires forall c: nat ::
      ColorAt(StitchedColors(side, srcColors, tgtColors, k, s, width, depth, host), c)
        == StitchColorOn(side, srcColors, tgtColors, Stitched(side, k, s, width, depth), c, width, depth, host)
    ensures forall c: nat ::
      ColorAt(StitchedColors(side, srcColors, tgtColors, k, t, width, depth, host), c)
        == StitchColorOn(side, srcColors, tgtColors, Stitched(side, k, t, width, depth), c, width, depth, host)
  {
    PositionBeforeCell(side, k, t, width, depth);
    StitchedStep(side, k, s, t, width, depth);
    var j := EdgeCell(side, k, s, width);
    var before := StitchedColors(side, srcColors, tgtColors, k, s, width, depth, host);
    var after := StitchedColors(side, srcColors, tgtColors, k, t, width, depth, host);
    assert after == before[j := StitchColor(side, srcColors, tgtColors, j, width, depth, host)];
    forall c: nat
      ensures ColorAt(after, c) == StitchColorOn(side, srcColors, tgtColors, Stitched(side, k, t, width, depth), c, width, depth, host)
    {
      if c != j {
        assert ColorAt(after, c) == ColorAt(before, c);
      }
    }
  }

  /** What stitch finds at cell t of line k: the cell, in the margin at distance k,
      and its mirrored cell still hold their original heights and colours. */
  lemma StitchCellUntouched(side: StitchSide, src: seq<real>, tgt: seq<real>, srcColors: map<nat, Color>,
                            tgtColors: map<nat, Color>, k: nat, t: nat, width: nat, depth: nat, host: Host)
    requires width > 0 && |src| == |tgt| == width * depth && SideMargin(side, width, depth) != 1
    requires k < SideMargin(side, width, depth) && t < EdgeLength(side, width, depth)
    ensures EdgeCell(side, k, t, width) < width * depth
    ensures InMargin(side, EdgeCell(side, k, t, width), width, depth)
    ensures EdgeWeight(side, EdgeCell(side, k, t, width), width, depth) == StitchWeight(k, SideMargin(side, width, depth))
    ensures var j := EdgeCell(side, k, t, width);
      var i := MirrorCell(side, j, width, depth);
      var heights := StitchedHeights(side, src, tgt, k, t, width, depth);
      var colors := StitchedColors(side, srcColors, tgtColors, k, t, width, depth, host);
      heights[j] == src[j] && heights[i] == src[i] &&
      ColorAt(colors, j) == ColorAt(srcColors, j) && ColorAt(colors, i) == ColorAt(srcColors, i)
  {
    StitchedHeightsMatch(side, src, tgt, k, t, width, depth);
    StitchedColorsMatch(side, srcColors, tgtColors, k, t, width, depth, host);
    StitchHeightsStep(side, src, tgt, k, t, t + 1, width, depth);
    var j := EdgeCell(side, k, t, width);
    var i := MirrorCell(side, j, width, depth);
    var done := Stitched(side, k, t, width, depth);
    StitchedStep(side, k, t, t + 1, width, depth);
    MirrorOutsideMargin(side, j, width, depth);
    assert i !in done && j !in done;
    assert StitchColorOn(side, srcColors, tgtColors, done, j, width, depth, host) == ColorAt(srcColors, j);
    assert StitchColorOn(side, srcColors, tgtColors, done, i, width, depth, host) == ColorAt(srcColors, i);
  }

  /** Past the last line of the margin, stitch's order has produced stitch's result. */
  lemma StitchedComplete(side: StitchSide, src: seq<real>, tgt: seq<real>, srcColors: map<nat, Color>,
                         tgtColors: map<nat, Color>, width: nat, depth: nat, host: Host)
    requires width > 0 && |src| == |tgt| == width * depth && SideMargin(side, width, depth) != 1
    ensures StitchedHeights(side, src, tgt, SideMargin(side, width, depth), 0, width, depth) == StitchHeights(side, src, tgt, width, depth)
    ensures StitchedColors(side, srcColors, tgtColors, SideMargin(side, width, depth), 0, width, depth, host)
      == StitchColors(side, srcColors, tgtColors, width, depth, host)
  {
    var m := SideMargin(side, width, depth);
    StitchedHeightsMatch(side, src, tgt, m, 0, width, depth);
    StitchHeightsOnAll(side, src, tgt, width, depth);
    StitchedColorsMatch(side, srcColors, tgtColors, m, 0, width, depth, host);
    StitchColorOnAll(side, srcColors, tgtColors, width, depth, host);
    ColorsExtensional(StitchedColors(side, srcColors, tgtColors, m, 0, width, depth, host),
                      StitchColors(side, srcColors, tgtColors, width, depth, host));
  }
}
