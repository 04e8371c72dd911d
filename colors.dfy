/**
 * Colour parameter arithmetic (src/color.ts): stop-position inference,
 * sampling a gradient at a position, the luminance mapping of the `Color`
 * constructor and the transforms that derive a new `Color` from an old one.
 *
 * Colour-space math (`tinycolor.mix(a, b, pct).toHexString()`) is not part of
 * this model: it is the injected `Mixer`.
 */
module Colors {
  import opened Wrappers

  /** tinycolor.mix(a, b, percent).toHexString() */
  type Mixer = (string, string, real) -> string

  datatype Stop = Stop(color: string, pos: real)

  /** An entry of a colour scale: a bare colour, or a colour with an explicit position. */
  datatype ColorOrStop = Raw(raw: string) | Explicit(stop: Stop)

  function ColorOf(c: ColorOrStop): string {
    match c
    case Raw(s) => s
    case Explicit(st) => st.color
  }

  /** Every scale but a single bare colour, whose inferred position is 0 / 0. */
  predicate Placeable(scale: seq<ColorOrStop>) {
    |scale| != 1 || scale[0].Explicit?
  }

  /**
   * A scale that can be sampled: interpolateColor reads the colour of at
   * least one stop (on an empty scale it reads a property of undefined).
   */
  predicate Usable(scale: seq<ColorOrStop>) {
    |scale| > 0
  }

  /**
   * Stands for the NaN that 0 / 0 gives as the position of a single bare
   * colour; sampling a one-stop scale never looks at the position
   * (OneStopIgnoresPosition), so any value serves.
   */
  const NotANumber: real := 0.0

  /**
   * The anchor (index, position) behind index i: the last explicit stop
   * before i, or (0, 0) when there is none.
   */
  function PrevAnchor(scale: seq<ColorOrStop>, i: nat): (a: (nat, real))
    requires i <= |scale|
    ensures a.0 <= i
    ensures || (a.0 < i && scale[a.0].Explicit? && a.1 == scale[a.0].stop.pos)
            || (a == (0, 0.0) && forall k :: 0 <= k < i ==> scale[k].Raw?)
    ensures forall k :: a.0 < k < i ==> scale[k].Raw?
    decreases i
  {
    if i == 0 then (0, 0.0)
    else if scale[i - 1].Explicit? then (i - 1, scale[i - 1].stop.pos)
    else PrevAnchor(scale, i - 1)
  }

  /**
   * The anchor (index, position) ahead of index i: the first explicit stop
   * after i, or (last index, 1) when there is none.
   */
  function NextAnchor(scale: seq<ColorOrStop>, i: nat): (a: (nat, real))
    requires i < |scale|
    ensures i <= a.0 < |scale|
    ensures || (i < a.0 && scale[a.0].Explicit? && a.1 == scale[a.0].stop.pos)
            || (a == (|scale| - 1, 1.0) && forall k :: i < k < |scale| ==> scale[k].Raw?)
    ensures forall k :: i < k < a.0 ==> scale[k].Raw?
    decreases |scale| - i
  {
    if i + 1 == |scale| then (|scale| - 1, 1.0)
    else if scale[i + 1].Explicit? then (i + 1, scale[i + 1].stop.pos)
    else NextAnchor(scale, i + 1)
  }

  /**
   * Position of a bare colour at index i from its anchors (index, position):
   * linear in the index between them.
   */
  function InferredPos(low: (nat, real), high: (nat, real), i: nat): real {
    if high.0 == low.0 then NotANumber
    else Lerp(low.1, high.1, (high.0 - low.0) as real, (i - low.0) as real)
  }

  /** The point t steps along a line rising from `low` to `high` over `span` steps. */
  function Lerp(low: real, high: real, span: real, t: real): real
    requires span != 0.0
  {
    var slope := (high - low) / span;
    low + slope * t
  }

  function StopAt(scale: seq<ColorOrStop>, i: nat): Stop
    requires i < |scale|
  {
    match scale[i]
    case Explicit(st) => st
    case Raw(c) => Stop(c, InferredPos(PrevAnchor(scale, i), NextAnchor(scale, i), i))
  }

  /** What getPositions returns, stop by stop. */
  function Positions(scale: seq<ColorOrStop>): seq<Stop>
  {
    seq(|scale|, i requires 0 <= i < |scale| => StopAt(scale, i))
  }

  /** getPositions: one pass keeping the last anchor, with a forward scan for the next one. */
  method GetPositions(scale: seq<ColorOrStop>) returns (res: seq<Stop>)
    ensures res == Positions(scale)
  {
    var lastLow := 0.0;
    var lowIndex: nat := 0;
    res := [];
    var i := 0;
    while i < |scale|
      invariant 0 <= i <= |scale|
      invariant lowIndex == PrevAnchor(scale, i).0 && lastLow == PrevAnchor(scale, i).1
      invariant res == Positions(scale)[..i]
    {
      var stop := scale[i];
      if stop.Explicit? {
        lastLow := stop.stop.pos;
        lowIndex := i;
        assert Positions(scale)[i] == stop.stop;
        res := res + [stop.stop];
      } else {
        var placed := PlaceBare(scale, i, lowIndex, lastLow);
        assert PrevAnchor(scale, i + 1) == PrevAnchor(scale, i);
        res := res + [placed];
      }
      assert Positions(scale)[..i + 1] == Positions(scale)[..i] + [Positions(scale)[i]];
      i := i + 1;
    }
    assert Positions(scale)[..|scale|] == Positions(scale);
  }

  /** getPositions on a bare colour: scan for the next anchor, then interpolate from the last one. */
  method PlaceBare(scale: seq<ColorOrStop>, i: nat, lowIndex: nat, lastLow: real) returns (placed: Stop)
    requires i < |scale| && scale[i].Raw?
    requires (lowIndex, lastLow) == PrevAnchor(scale, i)
    ensures placed == Positions(scale)[i]
  {
    var highIndex, nextHigh := ScanNextStop(scale, i);
    var pos;
    if highIndex == lowIndex {
      pos := NotANumber;
    } else {
      var slope := (nextHigh - lastLow) / (highIndex - lowIndex) as real;
      pos := lastLow + slope * (i - lowIndex) as real;
    }
    placed := Stop(scale[i].raw, pos);
  }

  /** The inner loop of getPositions: the first explicit stop after i, else (last index, 1). */
  method ScanNextStop(scale: seq<ColorOrStop>, i: nat) returns (highIndex: nat, nextHigh: real)
    requires i < |scale|
    ensures (highIndex, nextHigh) == NextAnchor(scale, i)
  {
    highIndex, nextHigh := |scale| - 1, 1.0;
    var j := i + 1;
    while j < |scale|
      invariant i + 1 <= j <= |scale|
      invariant highIndex == |scale| - 1 && nextHigh == 1.0
      invariant NextAnchor(scale, i) == NextAnchor(scale, j - 1)
    {
      if scale[j].Explicit? {
        nextHigh := scale[j].stop.pos;
        highIndex := j;
        return;
      }
      j := j + 1;
    }
  }

  /** Placement keeps every entry, in order, with its colour; explicit stops pass through. */
  lemma PositionsKeepEntries(scale: seq<ColorOrStop>, i: nat)
    requires i < |scale|
    ensures |Positions(scale)| == |scale|
    ensures Positions(scale)[i].color == ColorOf(scale[i])
    ensures scale[i].Explicit? ==> Positions(scale)[i] == scale[i].stop
  {
  }

  /** A bare colour at index 0 lands at 0. */
  lemma LeadingBareAtZero(scale: seq<ColorOrStop>)
    requires |scale| >= 2 && scale[0].Raw?
    ensures Positions(scale)[0].pos == 0.0
  {
  }

  /** low + (high - low) / span * span == high */
  lemma LerpEnd(low: real, high: real, span: real)
    requires span > 0.0
    ensures Lerp(low, high, span, span) == high
  {
  }

  /** low + (high - low) / span * t lies in [low, high] for t in [0, span]. */
  lemma LerpBetween(low: real, high: real, span: real, t: real)
    requires low <= high && span > 0.0 && 0.0 <= t <= span
    ensures low <= Lerp(low, high, span, t) <= high
  {
    var slope := (high - low) / span;
    assert slope >= 0.0;
    assert slope * span == high - low;
    assert slope * t <= slope * span by {
      assert slope * (span - t) >= 0.0;
    }
  }

  /** One index step moves an interpolated position by the (non-negative) slope. */
  lemma LerpStep(low: real, high: real, span: real, t: real)
    requires low <= high && span > 0.0
    ensures Lerp(low, high, span, t) <= Lerp(low, high, span, t + 1.0)
  {
    var slope := (high - low) / span;
    assert slope >= 0.0;
    assert slope * (t + 1.0) == slope * t + slope;
  }

  /** A bare colour at the last index lands exactly at 1. */
  lemma TrailingBareAtOne(scale: seq<ColorOrStop>)
    requires |scale| >= 2 && scale[|scale| - 1].Raw?
    ensures Positions(scale)[|scale| - 1].pos == 1.0
  {
    var i := |scale| - 1;
    var prev := PrevAnchor(scale, i);
    assert NextAnchor(scale, i) == (i, 1.0);
    LerpEnd(prev.1, 1.0, (i - prev.0) as real);
    assert Positions(scale)[i] == StopAt(scale, i);
  }

  /** The position given to a bare colour lies between its two anchors' positions. */
  lemma BareBetweenAnchors(scale: seq<ColorOrStop>, i: nat)
    requires Placeable(scale) && i < |scale| && scale[i].Raw?
    requires PrevAnchor(scale, i).1 <= NextAnchor(scale, i).1
    ensures PrevAnchor(scale, i).1 <= Positions(scale)[i].pos <= NextAnchor(scale, i).1
  {
    AnchorsApart(scale, i);
    InferredBetween(PrevAnchor(scale, i), NextAnchor(scale, i), i);
    assert Positions(scale)[i] == StopAt(scale, i);
  }

  lemma InferredBetween(low: (nat, real), high: (nat, real), i: nat)
    requires low.0 <= i <= high.0 && low.0 < high.0 && low.1 <= high.1
    ensures low.1 <= InferredPos(low, high, i) <= high.1
  {
    LerpBetween(low.1, high.1, (high.0 - low.0) as real, (i - low.0) as real);
  }

  /** The two anchors of a bare colour are distinct indices, so the slope's divisor is positive. */
  lemma AnchorsApart(scale: seq<ColorOrStop>, i: nat)
    requires Placeable(scale) && i < |scale| && scale[i].Raw?
    ensures PrevAnchor(scale, i).0 < NextAnchor(scale, i).0
  {
    if i == 0 {
      assert |scale| > 1;
    }
  }

  /** Explicit positions that ascend and lie in [0, 1]. */
  predicate ExplicitAscending(scale: seq<ColorOrStop>) {
    && (forall k :: 0 <= k < |scale| && scale[k].Explicit? ==> 0.0 <= scale[k].stop.pos <= 1.0)
    && (forall j, k :: 0 <= j < k < |scale| && scale[j].Explicit? && scale[k].Explicit? ==>
          scale[j].stop.pos <= scale[k].stop.pos)
  }

  lemma AnchorsOrdered(scale: seq<ColorOrStop>, i: nat)
    requires ExplicitAscending(scale) && i < |scale|
    ensures 0.0 <= PrevAnchor(scale, i).1 <= NextAnchor(scale, i).1 <= 1.0
  {
  }

  /** With ascending explicit positions in [0, 1], every placed position ascends too. */
  lemma {:induction false} PositionsAscend(scale: seq<ColorOrStop>, i: nat)
    requires Placeable(scale) && ExplicitAscending(scale) && i + 1 < |scale|
    ensures Positions(scale)[i].pos <= Positions(scale)[i + 1].pos
  {
    var p := Positions(scale);
    match (scale[i], scale[i + 1])
    case (Explicit(a), Explicit(b)) =>
    case (Raw(_), Explicit(b)) =>
      AnchorsOrdered(scale, i);
      BareBetweenAnchors(scale, i);
      assert NextAnchor(scale, i) == (i + 1, b.pos);
    case (Explicit(a), Raw(_)) =>
      AnchorsOrdered(scale, i + 1);
      BareBetweenAnchors(scale, i + 1);
      assert PrevAnchor(scale, i + 1) == (i, a.pos);
    case (Raw(_), Raw(_)) =>
      AnchorsOrdered(scale, i);
      AnchorsApart(scale, i);
      var prev := PrevAnchor(scale, i);
      var next := NextAnchor(scale, i);
      assert PrevAnchor(scale, i + 1) == prev;
      assert NextAnchor(scale, i + 1) == next;
      assert p[i] == StopAt(scale, i);
      assert p[i + 1] == StopAt(scale, i + 1);
      LerpStep(prev.1, next.1, (next.0 - prev.0) as real, (i - prev.0) as real);
  }

  // ---------------------------------------------------------------- sampling

  /** Math.min(Math.max(value, 0), 1) */
  function Clamp01(v: real): (r: real)
    ensures 0.0 <= r <= 1.0
    ensures 0.0 <= v <= 1.0 ==> r == v
    ensures v < 0.0 ==> r == 0.0
    ensures v > 1.0 ==> r == 1.0
  {
    var atLeast0 := if v > 0.0 then v else 0.0;
    if atLeast0 < 1.0 then atLeast0 else 1.0
  }

  /** Stop i brackets v: it is at or below v, and there is no next stop or the next one is above v. */
  predicate Brackets(scale: seq<Stop>, i: nat, v: real)
    requires i < |scale|
  {
    scale[i].pos <= v && (i + 1 == |scale| || scale[i + 1].pos > v)
  }

  /** The first index at or after `from` that brackets v, or |scale| when none does. */
  function FirstBracket(scale: seq<Stop>, v: real, from: nat): (k: nat)
    requires from <= |scale|
    ensures from <= k <= |scale|
    ensures k < |scale| ==> Brackets(scale, k, v)
    ensures forall j :: from <= j < k ==> !Brackets(scale, j, v)
    decreases |scale| - from
  {
    if from == |scale| then from
    else if Brackets(scale, from, v) then from
    else FirstBracket(scale, v, from + 1)
  }

  /** How a scale is sampled: a blend of stops low and low + 1, or one stop's own colour. */
  datatype Sample = Blend(low: nat, ratio: real) | Solid(at: nat)

  /** Which stops interpolateColor reads for `value`, and in what ratio. */
  function Select(scale: seq<Stop>, value: real): (s: Sample)
    requires |scale| > 0
    ensures s.Blend? ==>
      && s.low + 1 < |scale|
      && s.low == FirstBracket(scale, Clamp01(value), 0)
      && scale[s.low].pos <= Clamp01(value) < scale[s.low + 1].pos
      && 0.0 <= s.ratio < 1.0
      && s.ratio * (scale[s.low + 1].pos - scale[s.low].pos) == Clamp01(value) - scale[s.low].pos
    ensures s.Solid? ==> s.at == |scale| - 1 && FirstBracket(scale, Clamp01(value), 0) >= |scale| - 1
  {
    var v := Clamp01(value);
    var i := FirstBracket(scale, v, 0);
    if i + 1 < |scale| then
      var dpos := scale[i + 1].pos - scale[i].pos;
      var vald := v - scale[i].pos;
      assert 0.0 <= vald < dpos;
      Blend(i, vald / dpos)
    else
      Solid(|scale| - 1)
  }

  /** The colour interpolateColor returns. */
  function Interpolated(mix: Mixer, scale: seq<Stop>, value: real): string
    requires |scale| > 0
  {
    match Select(scale, value)
    case Blend(i, ratio) => mix(scale[i].color, scale[i + 1].color, ratio * 100.0)
    case Solid(i) => scale[i].color
  }

  /** interpolateColor: clamp, scan for the bracketing stop, then mix it with its successor. */
  method InterpolateColor(mix: Mixer, scale: seq<Stop>, value: real) returns (c: string)
    requires |scale| > 0
    ensures c == Interpolated(mix, scale, value)
  {
    var v := if value > 0.0 then value else 0.0;
    v := if v < 1.0 then v else 1.0;
    var color := scale[0];
    var i := 0;
    while i < |scale|
      invariant 0 <= i <= |scale|
      invariant FirstBracket(scale, v, i) == FirstBracket(scale, v, 0)
      invariant 0 < i ==> color == scale[i - 1]
    {
      color := scale[i];
      if color.pos <= v && (i + 1 >= |scale| || scale[i + 1].pos > v) {
        break;
      }
      i := i + 1;
    }
    if i + 1 >= |scale| {
      c := color.color;
    } else {
      var nextColor := scale[i + 1];
      var dpos := nextColor.pos - color.pos;
      var vald := v - color.pos;
      var ratio := vald / dpos;
      c := mix(color.color, nextColor.color, ratio * 100.0);
    }
  }

  /** When no stop lies at or below the clamped value, the scan falls through to the last stop, unmixed. */
  lemma BelowEveryStopGivesLast(mix: Mixer, scale: seq<Stop>, value: real)
    requires |scale| > 0
    requires forall k :: 0 <= k < |scale| ==> scale[k].pos > Clamp01(value)
    ensures Interpolated(mix, scale, value) == scale[|scale| - 1].color
  {
  }

  /** A value at or beyond the last stop's position samples the last stop's colour unmixed. */
  lemma {:induction false} AtOrPastLastGivesLast(mix: Mixer, scale: seq<Stop>, value: real)
    requires |scale| > 0
    requires forall k :: 0 <= k < |scale| ==> scale[k].pos <= Clamp01(value)
    ensures Interpolated(mix, scale, value) == scale[|scale| - 1].color
  {
    var s := Select(scale, value);
    if s.Blend? {
      assert false;
    }
  }

  /** A one-stop scale samples to that stop's colour whatever its position, NaN included. */
  lemma OneStopIgnoresPosition(mix: Mixer, stop: Stop, value: real)
    ensures Interpolated(mix, [stop], value) == stop.color
  {
  }

  /** A single bare colour is a scale of one colour: every sample is that colour. */
  lemma SingleBareColour(mix: Mixer, color: string, value: real)
    ensures Interpolated(mix, Positions([Raw(color)]), value) == color
  {
    var stops := Positions([Raw(color)]);
    assert stops == [Stop(color, NotANumber)];
    OneStopIgnoresPosition(mix, stops[0], value);
  }

  // ---------------------------------------------------------------- palette

  datatype Palette = Palette(fg: string, bg: string, fg2: string, bg2: string)

  /** getColors (without its cache): sample both scales at the two luminances, plus the gradient ends. */
  function GetColors(mix: Mixer, primary: seq<ColorOrStop>, secondary: seq<ColorOrStop>,
                     primaryLum: real, secondaryLum: real,
                     fgGradientContrast: real, bgGradientContrast: real): (p: Palette)
    requires Usable(primary) && Usable(secondary)
    ensures p.fg == Interpolated(mix, Positions(primary), (primaryLum + 1.0) / 2.0)
    ensures p.bg == Interpolated(mix, Positions(secondary), (secondaryLum + 1.0) / 2.0)
    ensures fgGradientContrast == 0.0 ==> p.fg2 == p.fg
    ensures bgGradientContrast == 0.0 ==> p.bg2 == p.bg
  {
    var primaryStops := Positions(primary);
    var secondaryStops := Positions(secondary);
    var fg := Interpolated(mix, primaryStops, (primaryLum + 1.0) / 2.0);
    var bg := Interpolated(mix, secondaryStops, (secondaryLum + 1.0) / 2.0);
    var fg2 :=
      if fgGradientContrast != 0.0 then
        var primaryLum2 := primaryLum + fgGradientContrast * (secondaryLum - primaryLum);
        var fgprimary := Interpolated(mix, primaryStops, (primaryLum2 + 1.0) / 2.0);
        var fgsecondary := Interpolated(mix, secondaryStops, (primaryLum2 + 1.0) / 2.0);
        mix(fgprimary, fgsecondary, fgGradientContrast * 100.0)
      else fg;
    var bg2 :=
      if bgGradientContrast != 0.0 then
        var secondaryLum2 := secondaryLum + bgGradientContrast * (primaryLum - secondaryLum);
        var bgprimary := Interpolated(mix, primaryStops, (secondaryLum2 + 1.0) / 2.0);
        var bgsecondary := Interpolated(mix, secondaryStops, (secondaryLum2 + 1.0) / 2.0);
        mix(bgsecondary, bgprimary, bgGradientContrast * 100.0)
      else bg;
    Palette(fg, bg, fg2, bg2)
  }

  /** x * invcoeff, where invcoeff is -1 for an inverted colour and 1 otherwise. */
  function Signed(x: real, inverted: bool): real {
    if inverted then -x else x
  }

  /** The constructor's two sampling luminances (primaryLum, secondaryLum). */
  function SampleLums(lum: real, contrast: real, inverted: bool): (l: (real, real))
    ensures l.1 - l.0 == Signed(2.0 * contrast, inverted)
    ensures contrast == 0.0 ==> l.0 == lum && l.1 == lum
  {
    var range := contrast * 2.0;
    var normLum := (Signed(lum, inverted) + 1.0) / 2.0;
    var base := (2.0 - range) * normLum;
    (Signed(-1.0 + base, inverted), Signed(-1.0 + base + range, inverted))
  }

  /** (2 - range) * normLum lies in [0, 2 - range] */
  lemma ScaledBase(range: real, normLum: real)
    requires 0.0 <= range <= 2.0 && 0.0 <= normLum <= 1.0
    ensures 0.0 <= (2.0 - range) * normLum <= 2.0 - range
  {
    var a := 2.0 - range;
    var b := 1.0 - normLum;
    MulNonNegative(a, normLum);
    MulNonNegative(a, b);
    assert a * b == a - a * normLum;
  }

  lemma MulNonNegative(x: real, y: real)
    requires x >= 0.0 && y >= 0.0
    ensures x * y >= 0.0
  {
  }

  /** With lum in [-1, 1] and contrast in [0, 1], both sampling luminances stay in [-1, 1]. */
  lemma SampleLumsInRange(lum: real, contrast: real, inverted: bool)
    requires -1.0 <= lum <= 1.0 && 0.0 <= contrast <= 1.0
    ensures -1.0 <= SampleLums(lum, contrast, inverted).0 <= 1.0
    ensures -1.0 <= SampleLums(lum, contrast, inverted).1 <= 1.0
  {
    ScaledBase(contrast * 2.0, (Signed(lum, inverted) + 1.0) / 2.0);
  }

  /** Inverting mirrors the luminance mapping: inverted sampling at lum is non-inverted sampling at -lum, negated. */
  lemma InvertedMirrorsLums(lum: real, contrast: real)
    ensures SampleLums(lum, contrast, true).0 == -SampleLums(-lum, contrast, false).0
    ensures SampleLums(lum, contrast, true).1 == -SampleLums(-lum, contrast, false).1
  {
  }

  // ---------------------------------------------------------------- Color

  /** The parameters a Color keeps; its four colours are derived from them by `Shades`. */
  datatype ColorParams = ColorParams(
    primary: seq<ColorOrStop>, secondary: seq<ColorOrStop>,
    lum: real, contrast: real, inverted: bool, nudgecoeff: real,
    fgGradientContrast: real, bgGradientContrast: real)

  /** What every constructed Color satisfies: both scales can be sampled, and nudgecoeff is never 0. */
  predicate Constructible(c: ColorParams) {
    Usable(c.primary) && Usable(c.secondary) && c.nudgecoeff != 0.0
  }

  type Color = c: ColorParams | Constructible(c)
    witness ColorParams([Raw("black"), Raw("white")], [Raw("black"), Raw("white")],
                        0.0, 0.5, false, 1.0, 0.0, 0.0)

  /** The optional constructor arguments, which are also what serialize returns. */
  datatype Serial = Serial(
    primary: Option<seq<ColorOrStop>>, secondary: Option<seq<ColorOrStop>>,
    lum: Option<real>, contrast: Option<real>, inverted: Option<bool>, nudgecoeff: Option<real>,
    fgGradientContrast: Option<real>, bgGradientContrast: Option<real>)

  const DefaultScale: seq<ColorOrStop> := [Raw("black"), Raw("white")]

  /** `x || fallback` for an optional number: undefined and 0 fall back. */
  function OrNumber(x: Option<real>, fallback: real): (r: real)
    ensures x.Some? && x.value != 0.0 ==> r == x.value
    ensures (x.None? || x.value == 0.0) ==> r == fallback
  {
    if x.Some? && x.value != 0.0 then x.value else fallback
  }

  function ChosenPrimary(args: Serial): seq<ColorOrStop> {
    args.primary.GetOr(DefaultScale)
  }

  function ChosenSecondary(args: Serial): seq<ColorOrStop> {
    args.secondary.GetOr(ChosenPrimary(args))
  }

  /** Arguments the constructor can complete: both chosen scales can be sampled. */
  predicate Buildable(args: Serial) {
    Usable(ChosenPrimary(args)) && Usable(ChosenSecondary(args))
  }

  /** new Color(primary?, secondary?, lum?, contrast?, inverted?, nudgecoeff?, fgGradientContrast?, bgGradientContrast?): its parameters. */
  function NewColor(args: Serial): (c: Color)
    requires Buildable(args)
    ensures c.primary == args.primary.GetOr(DefaultScale)
    ensures c.secondary == args.secondary.GetOr(c.primary)
    ensures c.lum == OrNumber(args.lum, 0.0)
    ensures c.contrast == args.contrast.GetOr(0.5)
    ensures c.inverted == args.inverted.GetOr(false)
    ensures c.nudgecoeff == OrNumber(args.nudgecoeff, 1.0)
    ensures c.fgGradientContrast == OrNumber(args.fgGradientContrast, 0.0)
    ensures c.bgGradientContrast == OrNumber(args.bgGradientContrast, 0.0)
  {
    ColorParams(ChosenPrimary(args), ChosenSecondary(args),
                OrNumber(args.lum, 0.0), args.contrast.GetOr(0.5), args.inverted.GetOr(false),
                OrNumber(args.nudgecoeff, 1.0),
                OrNumber(args.fgGradientContrast, 0.0), OrNumber(args.bgGradientContrast, 0.0))
  }

  /** The constructor's fg, bg, fg2, bg2: getColors at the sampling luminances, ends swapped when inverted. */
  function Shades(mix: Mixer, c: Color): (s: Palette)
    ensures c.fgGradientContrast == 0.0 ==> s.fg2 == s.fg
    ensures c.bgGradientContrast == 0.0 ==> s.bg2 == s.bg
  {
    var l := SampleLums(c.lum, c.contrast, c.inverted);
    var p := GetColors(mix, c.primary, c.secondary, l.0, l.1, c.fgGradientContrast, c.bgGradientContrast);
    if c.inverted then Palette(p.fg2, p.bg2, p.fg, p.bg) else p
  }

  /** An inverted colour shows getColors' gradient ends as its main colours and its main colours as the ends. */
  lemma InvertedSwapsEnds(mix: Mixer, c: Color)
    ensures var l := SampleLums(c.lum, c.contrast, c.inverted);
      var p := GetColors(mix, c.primary, c.secondary, l.0, l.1, c.fgGradientContrast, c.bgGradientContrast);
      && (c.inverted ==> Shades(mix, c) == Palette(p.fg2, p.bg2, p.fg, p.bg))
      && (!c.inverted ==> Shades(mix, c) == p)
  {
  }

  const NoArgs := Serial(None, None, None, None, None, None, None, None)

  /** `new Color()`: black-to-white on both sides, lum 0, contrast 0.5, nudgecoeff 1, solid colours. */
  lemma DefaultColor(mix: Mixer)
    ensures var c := NewColor(NoArgs);
      && c.primary == [Raw("black"), Raw("white")] && c.secondary == c.primary
      && c.lum == 0.0 && c.contrast == 0.5 && !c.inverted && c.nudgecoeff == 1.0
      && Shades(mix, c).fg2 == Shades(mix, c).fg && Shades(mix, c).bg2 == Shades(mix, c).bg
  {
  }

  /** An explicit contrast of 0 is kept (only undefined defaults), while lum 0 and nudgecoeff 0 fall back. */
  lemma ZeroArgumentsFallBack(args: Serial)
    requires Buildable(args) && args.contrast == Some(0.0) && args.nudgecoeff == Some(0.0)
    requires args.lum == Some(0.0)
    ensures NewColor(args).contrast == 0.0
    ensures NewColor(args).nudgecoeff == 1.0
    ensures NewColor(args).lum == 0.0
  {
  }

  // ---------------------------------------------------------------- transforms

  /** serialize: the stored parameters. */
  function Serialize(c: Color): (s: Serial)
    ensures s.primary == Some(c.primary) && s.secondary == Some(c.secondary)
    ensures s.lum == Some(c.lum) && s.contrast == Some(c.contrast) && s.inverted == Some(c.inverted)
    ensures s.nudgecoeff == Some(c.nudgecoeff)
    ensures s.fgGradientContrast == Some(c.fgGradientContrast)
    ensures s.bgGradientContrast == Some(c.bgGradientContrast)
  {
    Serial(Some(c.primary), Some(c.secondary), Some(c.lum), Some(c.contrast), Some(c.inverted),
           Some(c.nudgecoeff), Some(c.fgGradientContrast), Some(c.bgGradientContrast))
  }

  /** Constructing from a colour's own serialization gives the same colour. */
  lemma {:induction false} RebuildIsIdentity(c: Color)
    ensures Buildable(Serialize(c)) && NewColor(Serialize(c)) == c
  {
    var d := NewColor(Serialize(c));
    assert d.lum == c.lum by {
      assert OrNumber(Some(c.lum), 0.0) == c.lum;
    }
    assert d.nudgecoeff == c.nudgecoeff;
    assert d.fgGradientContrast == c.fgGradientContrast;
    assert d.bgGradientContrast == c.bgGradientContrast;
  }

  /** nudge(diff): step lum by diff·(1 + 3·contrast)·nudgecoeff, reflecting instead of clamping. */
  function Nudge(c: Color, diff: real): (r: Color)
    ensures var step := diff * (1.0 + c.contrast * 3.0) * c.nudgecoeff;
      r.lum == if -1.0 <= c.lum + step <= 1.0 then c.lum + step else c.lum - step
    ensures r.nudgecoeff == if diff >= 0.0 then -c.nudgecoeff else c.nudgecoeff
    ensures r == c.(lum := r.lum, nudgecoeff := r.nudgecoeff)
  {
    var invcoeff := 1.0;
    var scaledDiff := diff * (1.0 + c.contrast * 3.0);
    var newlum := c.lum + scaledDiff * c.nudgecoeff * invcoeff;
    var newlum' := if newlum > 1.0 || newlum < -1.0 then c.lum - scaledDiff * c.nudgecoeff * invcoeff else newlum;
    NewColor(Serialize(c).(lum := Some(newlum'),
                           nudgecoeff := Some(if diff >= 0.0 then -c.nudgecoeff else c.nudgecoeff)))
  }

  /** A nudge whose step is at most 1 in size keeps a luminance in [-1, 1] inside [-1, 1]. */
  lemma NudgeStaysInRange(c: Color, diff: real)
    requires -1.0 <= c.lum <= 1.0
    requires -1.0 <= diff * (1.0 + c.contrast * 3.0) * c.nudgecoeff <= 1.0
    ensures -1.0 <= Nudge(c, diff).lum <= 1.0
  {
  }

  /**
   * Nudging twice by the same non-negative amount gives back the colour when
   * the first step did not reflect: nudgecoeff flips, so the second step goes back.
   */
  lemma NudgeTwiceReturns(c: Color, diff: real)
    requires diff >= 0.0 && -1.0 <= c.lum <= 1.0
    requires -1.0 <= c.lum + diff * (1.0 + c.contrast * 3.0) * c.nudgecoeff <= 1.0
    ensures Nudge(Nudge(c, diff), diff) == c
  {
    var k := diff * (1.0 + c.contrast * 3.0);
    var once := Nudge(c, diff);
    assert once.lum == c.lum + k * c.nudgecoeff;
    assert once.nudgecoeff == -c.nudgecoeff;
    assert k * once.nudgecoeff == -(k * c.nudgecoeff);
  }

  function Min(a: real, b: real): real { if a < b then a else b }
  function Max(a: real, b: real): real { if a > b then a else b }

  /** contrast(diff): contrast + diff clamped to [0, 1]; nothing else changes. */
  function Contrast(c: Color, diff: real): (r: Color)
    ensures 0.0 <= r.contrast <= 1.0
    ensures 0.0 <= c.contrast + diff <= 1.0 ==> r.contrast == c.contrast + diff
    ensures c.contrast + diff < 0.0 ==> r.contrast == 0.0
    ensures c.contrast + diff > 1.0 ==> r.contrast == 1.0
    ensures r == c.(contrast := r.contrast)
  {
    var newcontrast := Max(Min(c.contrast + diff, 1.0), 0.0);
    RebuildIsIdentity(c);
    NewColor(Serialize(c).(contrast := Some(newcontrast)))
  }

  /** invert(): flips `inverted` only. */
  function Invert(c: Color): (r: Color)
    ensures r == c.(inverted := !c.inverted)
  {
    RebuildIsIdentity(c);
    NewColor(Serialize(c).(inverted := Some(!c.inverted)))
  }

  /** Inverting twice gives back the same colour. */
  lemma InvertInvolutive(c: Color)
    ensures Invert(Invert(c)) == c
  {
  }

  /** as(newPrimary, newSecondary?): new scales (with the constructor's defaults); every other parameter kept. */
  function As(c: Color, newPrimary: Option<seq<ColorOrStop>>, newSecondary: Option<seq<ColorOrStop>>): (r: Color)
    requires Buildable(Serialize(c).(primary := newPrimary, secondary := newSecondary))
    ensures r.primary == newPrimary.GetOr(DefaultScale)
    ensures r.secondary == newSecondary.GetOr(r.primary)
    ensures r == c.(primary := r.primary, secondary := r.secondary)
  {
    RebuildIsIdentity(c);
    NewColor(Serialize(c).(primary := newPrimary, secondary := newSecondary))
  }

  /** fgGrad(n?): swaps primary and secondary and sets the foreground gradient contrast (0 when n is omitted or 0). */
  function FgGrad(c: Color, newFgGradientContrast: Option<real>): (r: Color)
    ensures r == c.(primary := c.secondary, secondary := c.primary,
                    fgGradientContrast := OrNumber(newFgGradientContrast, 0.0))
  {
    RebuildIsIdentity(c);
    NewColor(Serialize(c).(primary := Some(c.secondary), secondary := Some(c.primary),
                           fgGradientContrast := newFgGradientContrast))
  }

  /** grad(n?): swaps primary and secondary and sets the background gradient contrast (0 when n is omitted or 0). */
  function Grad(c: Color, newBgGradientContrast: Option<real>): (r: Color)
    ensures r == c.(primary := c.secondary, secondary := c.primary,
                    bgGradientContrast := OrNumber(newBgGradientContrast, 0.0))
  {
    RebuildIsIdentity(c);
    NewColor(Serialize(c).(primary := Some(c.secondary), secondary := Some(c.primary),
                           bgGradientContrast := newBgGradientContrast))
  }

  /** absLum(l?): swaps primary and secondary and sets lum (0 when l is omitted). */
  function AbsLum(c: Color, newLum: Option<real>): (r: Color)
    ensures r == c.(primary := c.secondary, secondary := c.primary, lum := OrNumber(newLum, 0.0))
  {
    RebuildIsIdentity(c);
    NewColor(Serialize(c).(primary := Some(c.secondary), secondary := Some(c.primary),
                           lum := newLum))
  }

  /** absContrast(k?): swaps primary and secondary and sets contrast, without clamping (0.5 when k is omitted). */
  function AbsContrast(c: Color, newContrast: Option<real>): (r: Color)
    ensures r == c.(primary := c.secondary, secondary := c.primary, contrast := newContrast.GetOr(0.5))
  {
    RebuildIsIdentity(c);
    NewColor(Serialize(c).(primary := Some(c.secondary), secondary := Some(c.primary),
                           contrast := newContrast))
  }

  /**
   * Called without an argument, absContrast resets the contrast to the
   * constructor's 0.5, while absLum, fgGrad and grad reset to 0; an explicit
   * contrast of 0 is kept.
   */
  lemma OmittedArgumentsReset(c: Color)
    ensures AbsContrast(c, None).contrast == 0.5
    ensures AbsContrast(c, Some(0.0)).contrast == 0.0
    ensures AbsLum(c, None).lum == 0.0
    ensures FgGrad(c, None).fgGradientContrast == 0.0
    ensures Grad(c, None).bgGradientContrast == 0.0
  {
  }

  /** The serial with its two scales exchanged, as unserialize passes them to the constructor. */
  function Swapped(serial: Serial): Serial {
    serial.(primary := serial.secondary, secondary := serial.primary)
  }

  /** unserialize(serial): constructs from a Serial, passing its secondary as primary and vice versa. */
  function Unserialize(serial: Serial): (r: Color)
    requires Buildable(Swapped(serial))
    ensures r.primary == serial.secondary.GetOr(DefaultScale)
    ensures r.secondary == serial.primary.GetOr(r.primary)
  {
    NewColor(Swapped(serial))
  }

  /** unserialize(serialize(c)) is c with its two scales exchanged. */
  lemma SerialRoundTripSwaps(c: Color)
    ensures Buildable(Swapped(Serialize(c)))
    ensures Unserialize(Serialize(c)) == c.(primary := c.secondary, secondary := c.primary)
  {
    RebuildIsIdentity(c);
  }

  /** Two serialize/unserialize round trips give back the colour exactly. */
  lemma {:induction false} SerialRoundTripTwice(c: Color)
    ensures Buildable(Swapped(Serialize(c)))
    ensures var once := Unserialize(Serialize(c));
      Buildable(Swapped(Serialize(once))) && Unserialize(Serialize(once)) == c
  {
    SerialRoundTripSwaps(c);
    var once := Unserialize(Serialize(c));
    SerialRoundTripSwaps(once);
  }

  /** toString(): "fg, bg", from the colour's palette. */
  function ToString(p: Palette): (s: string)
    ensures |s| == |p.fg| + 2 + |p.bg|
    ensures s[..|p.fg|] == p.fg && s[|p.fg|..|p.fg| + 2] == ", " && s[|p.fg| + 2..] == p.bg
  {
    p.fg + ", " + p.bg
  }
}
