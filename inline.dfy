/**
 * The `inline` style class (src/classes/inline.ts): an inline flex box with
 * a background and rounded corners by default, unrounded padding, a
 * one-pixel border and a gutter of an eighth of the size.
 */
module InlineClass {
  import opened Wrappers
  import opened Js
  import opened Types
  import opened Util
  import opened Component
  import CoreClass

  // ---------------------------------------------------------------- inline producer

  /** The vertical and horizontal padding: a quarter and a half of the size, scaled by `padd`, not rounded. */
  function Paddings(host: Host, m: map<string, Value>): (p: (real, real))
    ensures p.1 == Numeric(host, Get(m, "size")) / 2.0 * GetScalar(host, Get(m, "padd"))
    ensures p.0 * 2.0 == p.1
  {
    var size, scalar := Numeric(host, Get(m, "size")), GetScalar(host, Get(m, "padd"));
    (size / 4.0 * scalar, size / 2.0 * scalar)
  }

  /** padding: the two paddings in px; nothing when `padd` is falsy. */
  function Padding(host: Host, m: map<string, Value>): (r: Value)
    ensures !Truthy(Get(m, "padd")) ==> r == Undef
    ensures Truthy(Get(m, "padd")) ==>
      r == Str("\n          " + CoreClass.Px(host, Paddings(host, m).0)
               + "\n          " + CoreClass.Px(host, Paddings(host, m).1) + "\n        ")
  {
    if Truthy(Get(m, "padd")) then
      Str("\n          " + CoreClass.Px(host, Paddings(host, m).0)
          + "\n          " + CoreClass.Px(host, Paddings(host, m).1) + "\n        ")
    else Undef
  }

  /** The inline table of inline. */
  function Inline(host: Host): map<string, InlineRule> {
    map["padding" := Derive(m => Padding(host, m))]
  }

  // ---------------------------------------------------------------- sheet producers

  /** The sheet's border: none when `border` is falsy, else always one pixel in borderColor.fg. */
  function SheetBorder(host: Host, m: map<string, Value>): (r: Value)
    ensures !Truthy(Get(m, "border")) ==> r == Str("none")
    ensures Truthy(Get(m, "border")) ==>
      r == Str("1px solid " + Text(host, Shade(host, Get(m, "borderColor"), "fg")))
  {
    if Truthy(Get(m, "border")) then
      Str("1px solid " + Text(host, Shade(host, Get(m, "borderColor"), "fg")))
    else Str("none")
  }

  /** An eighth of the size, scaled by `gutter` and rounded. */
  function GutterSize(host: Host, m: map<string, Value>): real {
    Round(Numeric(host, Get(m, "size")) / 8.0 * GetScalar(host, Get(m, "gutter")))
  }

  /** The gutter rules: margin before every child but the first and after every child but the last, on the axis of `column`. */
  function GutterText(host: Host, m: map<string, Value>): string {
    var column := Truthy(Get(m, "column"));
    "\n\t\t\t> :not(:first-child) {\n        margin-" + CoreClass.Before(column) + ":"
      + CoreClass.Px(host, GutterSize(host, m)) + ";\n      }\n      > :not(:last-child) {\n        margin-"
      + CoreClass.After(column) + ":" + CoreClass.Px(host, GutterSize(host, m)) + ";\n      }\n    "
  }

  /** gutter && rules. */
  function Gutter(host: Host, m: map<string, Value>): (r: Value)
    ensures !Truthy(Get(m, "gutter")) ==> r == Get(m, "gutter")
    ensures Truthy(Get(m, "gutter")) ==> r == Str(GutterText(host, m))
  {
    And(Get(m, "gutter"), Str(GutterText(host, m)))
  }

  /** The margins run top and bottom in a column, left and right in a row. */
  lemma GutterAxis(column: bool)
    ensures column ==> CoreClass.Before(column) == "top" && CoreClass.After(column) == "bottom"
    ensures !column ==> CoreClass.Before(column) == "left" && CoreClass.After(column) == "right"
  {
  }

  const OpeningRule := "\n    display: inline-flex;\n\n    border: "

  /** The sheet of inline: inline-flex display, then the border and gutter producers. */
  function Styles(host: Host): (t: Template<Interp>)
    ensures WellFormed(t) && |t.values| == 2
    ensures t.strings[0] == OpeningRule
  {
    Css([OpeningRule, ";\n\n    ", "\n  "],
        [Produce((m, a) => SheetBorder(host, m)),
         Produce((m, a) => Gutter(host, m))])
  }

  // ---------------------------------------------------------------- props

  /** The props table of inline: a background and rounded corners by default. */
  function Props(): map<string, PropConfig> {
    map[
      "bg" := CoreClass.Fixed(Bool(true)),
      "rounded" := CoreClass.Fixed(Bool(true))
    ]
  }

  /** The inline class. */
  function InlineStyle(host: Host): StyleClass {
    StyleClass(Some(Inline(host)), Styles(host), Props())
  }

  // ---------------------------------------------------------------- what the class guarantees

  /** The sheet of an inline element starts with display: inline-flex, whatever the props. */
  lemma SheetStartsInlineFlex(host: Host, computed: map<string, Value>, attrs: map<string, Value>)
    ensures var text := Interpolate(host, EvalTemplate(Styles(host), computed, attrs));
      |OpeningRule| <= |text| && text[..|OpeningRule|] == OpeningRule
  {
    InterpolateStartsWithFirstChunk(host, EvalTemplate(Styles(host), computed, attrs));
  }

  /** Merged over core (any class with core's props), inline replaces bg's default false and rounded's undefined by true. */
  lemma MergedOverCore(host: Host, core: StyleClass)
    requires core.props == CoreClass.Props()
    ensures var merged := MergeClasses(core, InlineStyle(host)).props;
      && "bg" in core.props && core.props["bg"].default == Plain(Bool(false))
      && "rounded" in core.props && core.props["rounded"].default == Plain(Undef)
      && "bg" in merged && merged["bg"].default == Plain(Bool(true))
      && "rounded" in merged && merged["rounded"].default == Plain(Bool(true))
  {
  }

  /** Merged over core, every other core property is kept as it is. */
  lemma MergeKeepsCore(host: Host, core: StyleClass, k: string)
    requires core.props == CoreClass.Props()
    requires k in core.props && k != "bg" && k != "rounded"
    ensures var merged := MergeClasses(core, InlineStyle(host)).props;
      k in merged && merged[k] == core.props[k]
  {
    assert k !in Props();
  }
}
