/**
 * The slice of JavaScript value semantics the style logic relies on:
 * truthiness, `||` and `&&` (which return one of their operands), reading a
 * missing key as undefined, and String() as used by template literals and
 * string concatenation.
 */
module Js {
  import opened Wrappers
  import Colors

  /** A JavaScript value as it flows through themes, props and templates (functions are modelled apart). */
  datatype Value =
    | Undef
    | Null
    | Bool(b: bool)
    | Num(n: real)
    | Str(s: string)
    | Col(c: Colors.Color)

  /**
   * Capabilities of the JavaScript host that are outside this model:
   * tinycolor's mix + toHexString, Number#toString, lodash's camelCase and
   * parseFloat.
   */
  datatype Host = Host(
    mix: Colors.Mixer,
    numText: real -> string,
    camelCase: string -> string,
    parseFloat: string -> real)

  /** JavaScript truthiness (NaN is not modelled). */
  predicate Truthy(v: Value) {
    match v
    case Undef => false
    case Null => false
    case Bool(b) => b
    case Num(n) => n != 0.0
    case Str(s) => s != ""
    case Col(_) => true
  }

  /** a || b */
  function Or(a: Value, b: Value): (r: Value)
    ensures Truthy(a) ==> r == a
    ensures !Truthy(a) ==> r == b
  {
    if Truthy(a) then a else b
  }

  /** a && b */
  function And(a: Value, b: Value): (r: Value)
    ensures !Truthy(a) ==> r == a
    ensures Truthy(a) ==> r == b
  {
    if Truthy(a) then b else a
  }

  /** obj[key]: a missing key reads as undefined. */
  function Get(m: map<string, Value>, key: string): (r: Value)
    ensures key in m ==> r == m[key]
    ensures key !in m ==> r == Undef
  {
    if key in m then m[key] else Undef
  }

  /** String(v), which is also what `${v}` and `v + chunk` produce; a Color prints "fg, bg". */
  function Text(host: Host, v: Value): string {
    match v
    case Undef => "undefined"
    case Null => "null"
    case Bool(b) => if b then "true" else "false"
    case Num(n) => host.numText(n)
    case Str(s) => s
    case Col(c) => Colors.ToString(Colors.Shades(host.mix, c))
  }

  /** The colour of a Color-valued prop read as `prop.fg`, `prop.bg`, `prop.fg2` or `prop.bg2`; undefined on anything else. */
  function Shade(host: Host, v: Value, field: string): (r: Value)
    ensures !v.Col? ==> r == Undef
    ensures v.Col? && field == "fg" ==> r == Str(Colors.Shades(host.mix, v.c).fg)
    ensures v.Col? && field == "bg" ==> r == Str(Colors.Shades(host.mix, v.c).bg)
    ensures v.Col? && field == "fg2" ==> r == Str(Colors.Shades(host.mix, v.c).fg2)
    ensures v.Col? && field == "bg2" ==> r == Str(Colors.Shades(host.mix, v.c).bg2)
  {
    match v
    case Col(c) =>
      var p := Colors.Shades(host.mix, c);
      if field == "fg" then Str(p.fg)
      else if field == "bg" then Str(p.bg)
      else if field == "fg2" then Str(p.fg2)
      else if field == "bg2" then Str(p.bg2)
      else Undef
    case _ => Undef
  }

  /**
   * Number(v) as the arithmetic in the style producers applies it: numbers
   * as they are, booleans as 1 and 0, null as 0, anything else read as a
   * number by the host.
   */
  function Numeric(host: Host, v: Value): (r: real)
    ensures v.Num? ==> r == v.n
    ensures v == Bool(true) ==> r == 1.0
    ensures v == Bool(false) || v == Null ==> r == 0.0
  {
    match v
    case Num(n) => n
    case Bool(b) => if b then 1.0 else 0.0
    case Null => 0.0
    case _ => host.parseFloat(Text(host, v))
  }

  /** prop.nudge(diff) on a Color-valued prop; undefined on anything else. */
  function NudgeOf(v: Value, diff: real): (r: Value)
    ensures !v.Col? ==> r == Undef
    ensures v.Col? ==> r == Col(Colors.Nudge(v.c, diff))
  {
    match v
    case Col(c) => Col(Colors.Nudge(c, diff))
    case _ => Undef
  }
}
