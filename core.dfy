/**
 * The `core` style class (src/classes/core.ts): a flex box whose inline
 * entries, sheet producers and props table every ctyled component starts
 * from.
 */
module CoreClass {
  import opened Wrappers
  import opened Js
  import opened Types
  import opened Util
  import opened Component
  import Colors

  /** A number printed with a `px` unit. */
  function Px(host: Host, x: real): string {
    host.numText(x) + "px"
  }

  function EndsWith(s: string, suffix: string): bool {
    |suffix| <= |s| && s[|s| - |suffix|..] == suffix
  }

  function StartsWith(s: string, prefix: string): bool {
    |prefix| <= |s| && s[..|prefix|] == prefix
  }

  // ---------------------------------------------------------------- inline producers

  /** background: nothing unless `bg`; the solid bgColor.bg, or a gradient to bg2 when the two differ. */
  function Background(host: Host, m: map<string, Value>): (r: Value)
    ensures !Truthy(Get(m, "bg")) ==> r == Undef
    ensures Truthy(Get(m, "bg")) && Get(m, "bgColor").Col? ==>
      var p := Colors.Shades(host.mix, Get(m, "bgColor").c);
      r == if p.bg == p.bg2 then Str(p.bg) else Str("linear-gradient(" + p.bg + ", " + p.bg2 + ")")
  {
    if Truthy(Get(m, "bg")) then
      var bg := Shade(host, Get(m, "bgColor"), "bg");
      var bg2 := Shade(host, Get(m, "bgColor"), "bg2");
      if bg == bg2 then bg else Str("linear-gradient(" + Text(host, bg) + ", " + Text(host, bg2) + ")")
    else Undef
  }

  /** A background colour without a gradient contrast is painted solid. */
  lemma SolidBackgroundWithoutGradient(host: Host, m: map<string, Value>)
    requires Truthy(Get(m, "bg")) && Get(m, "bgColor").Col? && Get(m, "bgColor").c.bgGradientContrast == 0.0
    ensures Background(host, m) == Str(Colors.Shades(host.mix, Get(m, "bgColor").c).bg)
  {
  }

  /** color: the text colour is color.fg. */
  function TextColor(host: Host, m: map<string, Value>): (r: Value)
    ensures Get(m, "color").Col? ==> r == Str(Colors.Shades(host.mix, Get(m, "color").c).fg)
  {
    Shade(host, Get(m, "color"), "fg")
  }

  /** fontSize: the rounded size in px. */
  function FontSize(host: Host, m: map<string, Value>): (r: Value)
    ensures Get(m, "size").Num? ==> r == Str(Px(host, Round(Get(m, "size").n)))
  {
    Str(Px(host, Round(Numeric(host, Get(m, "size")))))
  }

  /** padding: half the size, scaled by `padd` and rounded; nothing when `padd` is falsy. */
  function Padding(host: Host, m: map<string, Value>): (r: Value)
    ensures !Truthy(Get(m, "padd")) ==> r == Undef
    ensures Truthy(Get(m, "padd")) ==>
      r == Str(Px(host, Round(Numeric(host, Get(m, "size")) / 2.0 * GetScalar(host, Get(m, "padd")))))
  {
    if Truthy(Get(m, "padd")) then
      Str(Px(host, Round(Numeric(host, Get(m, "size")) / 2.0 * GetScalar(host, Get(m, "padd")))))
    else Undef
  }

  /** flexDirection: column or row, with -reverse exactly when `reverse`. */
  function FlexDirection(m: map<string, Value>): (r: Value)
    ensures r.Str?
    ensures Truthy(Get(m, "reverse")) <==> EndsWith(r.s, "-reverse")
    ensures Truthy(Get(m, "column")) <==> StartsWith(r.s, "column")
    ensures !Truthy(Get(m, "column")) ==> StartsWith(r.s, "row")
  {
    var base := if Truthy(Get(m, "column")) then "column" else "row";
    var suffix := if Truthy(Get(m, "reverse")) then "-reverse" else "";
    assert (base + suffix)[0] == base[0];
    assert |base + suffix| >= 8 ==> (base + suffix)[|base + suffix| - 1] == (if suffix == "" then 'w' else 'e');
    Str(base + suffix)
  }

  /** overflowX: scroll for a scrolling row. */
  function OverflowX(m: map<string, Value>): (r: Value)
    ensures r == Str("scroll") <==> Truthy(Get(m, "scroll")) && !Truthy(Get(m, "column"))
    ensures r != Str("scroll") ==> r == Undef
  {
    if Truthy(Get(m, "scroll")) && !Truthy(Get(m, "column")) then Str("scroll") else Undef
  }

  /** overflowY: scroll for a scrolling column. */
  function OverflowY(m: map<string, Value>): (r: Value)
    ensures r == Str("scroll") <==> Truthy(Get(m, "scroll")) && Truthy(Get(m, "column"))
    ensures r != Str("scroll") ==> r == Undef
  {
    if Truthy(Get(m, "scroll")) && Truthy(Get(m, "column")) then Str("scroll") else Undef
  }

  /** pointerEvents: none exactly when disabled. */
  function PointerEvents(m: map<string, Value>): (r: Value)
    ensures r == Str("none") <==> Truthy(Get(m, "disabled"))
    ensures r != Str("none") ==> r == Undef
  {
    if Truthy(Get(m, "disabled")) then Str("none") else Undef
  }

  /** opacity: 0.7 exactly when disabled. */
  function Opacity(m: map<string, Value>): (r: Value)
    ensures r == Num(0.7) <==> Truthy(Get(m, "disabled"))
    ensures r != Num(0.7) ==> r == Undef
  {
    if Truthy(Get(m, "disabled")) then Num(0.7) else Undef
  }

  /** The radius: a sixth of the size, scaled by `rounded` and rounded. */
  function Radius(host: Host, m: map<string, Value>): real {
    Round(Numeric(host, Get(m, "size")) / 6.0 * GetScalar(host, Get(m, "rounded")))
  }

  /** The four corner radii, top-left, top-right, bottom-right, bottom-left: 0 where an adjacent side is flat. */
  function Corners(host: Host, m: map<string, Value>): (c: (real, real, real, real))
    ensures var top, left, right, bottom :=
        Truthy(Get(m, "flatTop")), Truthy(Get(m, "flatLeft")), Truthy(Get(m, "flatRight")), Truthy(Get(m, "flatBottom"));
      && c.0 == (if top || left then 0.0 else Radius(host, m))
      && c.1 == (if top || right then 0.0 else Radius(host, m))
      && c.2 == (if right || bottom then 0.0 else Radius(host, m))
      && c.3 == (if left || bottom then 0.0 else Radius(host, m))
  {
    var top, left, right, bottom :=
      Truthy(Get(m, "flatTop")), Truthy(Get(m, "flatLeft")), Truthy(Get(m, "flatRight")), Truthy(Get(m, "flatBottom"));
    var radius := Radius(host, m);
    (if top || left then 0.0 else radius, if top || right then 0.0 else radius,
     if right || bottom then 0.0 else radius, if left || bottom then 0.0 else radius)
  }

  /** The border-radius text of four corners. */
  function RadiusText(host: Host, c: (real, real, real, real)): string {
    "\n\t\t\t\t" + Px(host, c.0) + " " + Px(host, c.1) + " " + Px(host, c.2) + " " + Px(host, c.3) + "\n\t\t\t"
  }

  /** borderRadius: none unless `rounded`; otherwise the four corners. */
  function BorderRadius(host: Host, m: map<string, Value>): (r: Value)
    ensures !Truthy(Get(m, "rounded")) ==> r == Str("none")
    ensures Truthy(Get(m, "rounded")) ==> r == Str(RadiusText(host, Corners(host, m)))
  {
    if Truthy(Get(m, "rounded")) then Str(RadiusText(host, Corners(host, m))) else Str("none")
  }

  /** A flat top with a flat left and right leaves only the bottom corners rounded by the radius. */
  lemma FlatSidesSquareTheirCorners(host: Host, m: map<string, Value>)
    requires Truthy(Get(m, "flatTop")) && !Truthy(Get(m, "flatLeft")) && !Truthy(Get(m, "flatRight"))
    requires !Truthy(Get(m, "flatBottom"))
    ensures Corners(host, m) == (0.0, 0.0, Radius(host, m), Radius(host, m))
  {
  }

  /** width / height: falsy stays as it is, text is kept, a number is a multiple of the size in px. */
  function Extent(host: Host, v: Value, size: Value): (r: Value)
    ensures !Truthy(v) ==> r == v
    ensures Truthy(v) && v.Str? ==> r == v
    ensures Truthy(v) && !v.Str? ==> r == Str(Px(host, Round(Numeric(host, v) * Numeric(host, size))))
  {
    And(v, if v.Str? then v else Str(Px(host, Round(Numeric(host, v) * Numeric(host, size)))))
  }

  /** userSelect: none exactly when `noselect`. */
  function UserSelect(m: map<string, Value>): (r: Value)
    ensures r == Str("none") <==> Truthy(Get(m, "noselect"))
    ensures r != Str("none") ==> r == Undef
  {
    if Truthy(Get(m, "noselect")) then Str("none") else Undef
  }

  /** The inline table of core. */
  function Inline(host: Host): map<string, InlineRule> {
    map[
      "background" := Derive(m => Background(host, m)),
      "color" := Derive(m => TextColor(host, m)),
      "fontSize" := Derive(m => FontSize(host, m)),
      "padding" := Derive(m => Padding(host, m)),
      "flexDirection" := Derive(m => FlexDirection(m)),
      "alignItems" := Derive(m => Get(m, "align")),
      "justifyContent" := Derive(m => Get(m, "justify")),
      "flex" := Derive(m => Get(m, "flex")),
      "alignSelf" := Derive(m => Get(m, "alignSelf")),
      "overflowX" := Derive(m => OverflowX(m)),
      "overflowY" := Derive(m => OverflowY(m)),
      "pointerEvents" := Derive(m => PointerEvents(m)),
      "opacity" := Derive(m => Opacity(m)),
      "borderRadius" := Derive(m => BorderRadius(host, m)),
      "width" := Derive(m => Extent(host, Get(m, "width"), Get(m, "size"))),
      "height" := Derive(m => Extent(host, Get(m, "height"), Get(m, "size"))),
      "userSelect" := Derive(m => UserSelect(m))
    ]
  }

  // ---------------------------------------------------------------- sheet producers

  /** The sheet's border: none when `border` is falsy, else getScalar(border) px solid in borderColor.fg. */
  function SheetBorder(host: Host, m: map<string, Value>): (r: Value)
    ensures !Truthy(Get(m, "border")) ==> r == Str("none")
    ensures Truthy(Get(m, "border")) ==>
      r == Str(Px(host, GetScalar(host, Get(m, "border"))) + " solid " + Text(host, Shade(host, Get(m, "borderColor"), "fg")))
  {
    if Truthy(Get(m, "border")) then
      Str(Px(host, GetScalar(host, Get(m, "border"))) + " solid " + Text(host, Shade(host, Get(m, "borderColor"), "fg")))
    else Str("none")
  }

  /** The child that starts the run: the first, or the last when reversed. */
  function Leading(reverse: bool): string { if reverse then "last" else "first" }

  /** The child that ends the run. */
  function Trailing(reverse: bool): string { if reverse then "first" else "last" }

  /** The side facing the previous child: top in a column, left in a row. */
  function Before(column: bool): string { if column then "top" else "left" }

  /** The side facing the next child: bottom in a column, right in a row. */
  function After(column: bool): string { if column then "bottom" else "right" }

  /** A gutter of a quarter of the size, scaled by `gutter` and rounded. */
  function GutterSize(host: Host, m: map<string, Value>): real {
    Round(Numeric(host, Get(m, "size")) / 4.0 * GetScalar(host, Get(m, "gutter")))
  }

  /** The gutter rules: each child but the leading one spaced before (padded instead when lined), each but the trailing one after. */
  function GutterText(host: Host, m: map<string, Value>): string {
    var column, reverse := Truthy(Get(m, "column")), Truthy(Get(m, "reverse"));
    var space := if Truthy(Get(m, "lined")) then "padding-" else "margin-";
    "\n\t\t\t > :not(:" + Leading(reverse) + "-child) {\n        "
      + space + Before(column) + ":" + Px(host, GutterSize(host, m)) + ";"
      + "\n      }\n       > :not(:" + Trailing(reverse) + "-child) {\n        margin-"
      + After(column) + ":" + Px(host, GutterSize(host, m)) + ";\n      }\n    "
  }

  /** gutter && rules: a falsy gutter is passed through (and interpolates to nothing). */
  function Gutter(host: Host, m: map<string, Value>): (r: Value)
    ensures !Truthy(Get(m, "gutter")) ==> r == Get(m, "gutter") && !Truthy(r)
    ensures Truthy(Get(m, "gutter")) ==> r == Str(GutterText(host, m))
  {
    And(Get(m, "gutter"), Str(GutterText(host, m)))
  }

  /** A line of getScalar(lined) px in borderColor.fg on the given side. */
  function LineText(host: Host, m: map<string, Value>, side: string): string {
    side + ":" + Px(host, GetScalar(host, Get(m, "lined"))) + " solid "
      + Text(host, Shade(host, Get(m, "borderColor"), "fg")) + " !important;"
  }

  /** lined && rules: a line before every child but the leading one. */
  function Lined(host: Host, m: map<string, Value>): (r: Value)
    ensures !Truthy(Get(m, "lined")) ==> r == Get(m, "lined")
    ensures Truthy(Get(m, "lined")) ==>
      r == Str("\n      > :not(:" + Leading(Truthy(Get(m, "reverse"))) + "-child) {\n        border-"
               + LineText(host, m, Before(Truthy(Get(m, "column")))) + "\n      }\n    ")
  {
    And(Get(m, "lined"),
        Str("\n      > :not(:" + Leading(Truthy(Get(m, "reverse"))) + "-child) {\n        border-"
            + LineText(host, m, Before(Truthy(Get(m, "column")))) + "\n      }\n    "))
  }

  /** lined && endLine && rules: a closing line after the trailing child. */
  function EndLine(host: Host, m: map<string, Value>): (r: Value)
    ensures !(Truthy(Get(m, "lined")) && Truthy(Get(m, "endLine"))) ==> !Truthy(r)
    ensures Truthy(Get(m, "lined")) && Truthy(Get(m, "endLine")) ==>
      r == Str("\n      > :" + Trailing(Truthy(Get(m, "reverse"))) + "-child{\n        border-"
               + LineText(host, m, After(Truthy(Get(m, "column")))) + "\n      }\n    ")
  {
    And(And(Get(m, "lined"), Get(m, "endLine")),
        Str("\n      > :" + Trailing(Truthy(Get(m, "reverse"))) + "-child{\n        border-"
            + LineText(host, m, After(Truthy(Get(m, "column")))) + "\n      }\n    "))
  }

  /** The sheet of core: the static flex-box rules, then the border, gutter, line and end-line producers. */
  function Styles(host: Host): (t: Template<Interp>)
    ensures WellFormed(t) && |t.values| == 4
  {
    Css(["\n    position: relative;\n    box-sizing: border-box;\n    display: flex;\n    background-clip: border-box;\n\n    border: ",
         ";\n\n    ",
         " \n    ",
         "\n    \n    ",
         "\n  "],
        [Produce((m, a) => SheetBorder(host, m)),
         Produce((m, a) => Gutter(host, m)),
         Produce((m, a) => Lined(host, m)),
         Produce((m, a) => EndLine(host, m))])
  }

  // ---------------------------------------------------------------- props

  /** The default border colour: the text colour inverted and nudged by 0.3. */
  function BorderDefault(color: Value): (r: Value)
    ensures color.Col? ==> r == Col(Colors.Nudge(Colors.Invert(color.c), 0.3))
  {
    match color
    case Col(c) => Col(Colors.Nudge(Colors.Invert(c), 0.3))
    case _ => Undef
  }

  /** A property with a literal default that neither inherits nor extends. */
  function Fixed(v: Value): PropConfig {
    PropConfig(Plain(v), false, "", None)
  }

  /** The props table of core. */
  function Props(): map<string, PropConfig> {
    map[
      "color" := PropConfig(Plain(Col(Colors.NewColor(Colors.NoArgs))), true, "", None),
      "borderColor" := PropConfig(Derived(BorderDefault), false, "color", None),
      "bgColor" := PropConfig(Derived(color => color), false, "color", None),
      "size" := PropConfig(Plain(Num(14.0)), true, "", None),
      "width" := Fixed(Undef),
      "height" := Fixed(Undef),
      "bg" := Fixed(Bool(false)),
      "border" := Fixed(Undef),
      "padd" := Fixed(Undef),
      "column" := Fixed(Undef),
      "reverse" := Fixed(Undef),
      "justify" := Fixed(Str("flex-start")),
      "flex" := Fixed(Str("none")),
      "alignSelf" := Fixed(Str("")),
      "align" := Fixed(Str("stretch")),
      "gutter" := Fixed(Bool(false)),
      "lined" := Fixed(Undef),
      "endLine" := Fixed(Undef),
      "scroll" := Fixed(Undef),
      "disabled" := Fixed(Undef),
      "rounded" := Fixed(Undef),
      "flatLeft" := Fixed(Undef),
      "flatRight" := Fixed(Undef),
      "flatTop" := Fixed(Undef),
      "flatBottom" := Fixed(Undef),
      "noselect" := Fixed(Undef)
    ]
  }

  /** The core class. */
  function Core(host: Host): StyleClass {
    StyleClass(Some(Inline(host)), Styles(host), Props())
  }

  // ---------------------------------------------------------------- what the class guarantees

  /** Core's props table can be resolved: borderColor and bgColor extend color, which extends nothing. */
  lemma CoreResolvable()
    ensures Shallow(Props()) && Resolvable(Props())
  {
    ShallowIsResolvable(Props());
  }

  /** color inherits: the theme's colour when truthy, else a default Color. */
  lemma ColorInherits(s: Scope)
    requires CompValue(s, "color") == Given(Undef)
    ensures Resolvable(Props())
    ensures GetValue(Props(), s, "color") == Or(Get(s.theme, "color"), Col(Colors.NewColor(Colors.NoArgs)))
  {
    CoreResolvable();
    InheritedWithoutOverride(Props(), s, "color");
  }

  /** size inherits: the theme's size when truthy, else 14. */
  lemma SizeInherits(s: Scope)
    requires CompValue(s, "size") == Given(Undef)
    ensures Resolvable(Props())
    ensures GetValue(Props(), s, "size") == Or(Get(s.theme, "size"), Num(14.0))
  {
    CoreResolvable();
    InheritedWithoutOverride(Props(), s, "size");
  }

  /** Unless overridden, bgColor is the resolved color itself. */
  lemma BgColorFollowsColor(s: Scope)
    requires CompValue(s, "bgColor") == Given(Undef)
    ensures Resolvable(Props())
    ensures GetValue(Props(), s, "bgColor") == GetValue(Props(), s, "color")
  {
    CoreResolvable();
    ExtendedWithoutOverride(Props(), s, "bgColor");
  }

  /** Unless overridden, borderColor is the resolved color inverted and nudged by 0.3. */
  lemma BorderColorFollowsColor(s: Scope)
    requires CompValue(s, "borderColor") == Given(Undef)
    ensures Resolvable(Props())
    ensures GetValue(Props(), s, "borderColor") == BorderDefault(GetValue(Props(), s, "color"))
  {
    CoreResolvable();
    ExtendedWithoutOverride(Props(), s, "borderColor");
  }

  /** A core element never scrolls both ways: overflowX scrolls a row, overflowY a column. */
  lemma NeverScrollsBothWays(host: Host, m: map<string, Value>)
    ensures var entries := ClassInline(Some(Inline(host)), m);
      && "overflowX" in entries && "overflowY" in entries
      && !(entries["overflowX"] == Str("scroll") && entries["overflowY"] == Str("scroll"))
  {
    var entries := ClassInline(Some(Inline(host)), m);
    assert entries["overflowX"] == OverflowX(m);
    assert entries["overflowY"] == OverflowY(m);
  }

  /** A disabled element both ignores the pointer and is dimmed; an enabled one sets neither. */
  lemma DisabledTogether(host: Host, m: map<string, Value>)
    ensures var entries := ClassInline(Some(Inline(host)), m);
      && "pointerEvents" in entries && "opacity" in entries
      && (entries["pointerEvents"] == Str("none") <==> Truthy(Get(m, "disabled")))
      && (entries["opacity"] == Num(0.7) <==> Truthy(Get(m, "disabled")))
  {
    var entries := ClassInline(Some(Inline(host)), m);
    assert entries["pointerEvents"] == PointerEvents(m);
    assert entries["opacity"] == Opacity(m);
  }
}
