/**
 * The `active` style class (src/classes/active.ts): a pressable element's
 * outline and cursor, and the hover and pressed shades of its background
 * and text.
 */
module ActiveClass {
  import opened Wrappers
  import opened Js
  import opened Types
  import opened Util
  import opened Component
  import CoreClass

  // ---------------------------------------------------------------- inline producers

  /** outlineColor: the colour's bg. */
  function OutlineColor(host: Host, m: map<string, Value>): (r: Value)
    ensures Get(m, "color").Col? ==> r == Str(Colors.Shades(host.mix, Get(m, "color").c).bg)
    ensures !Get(m, "color").Col? ==> r == Undef
  {
    Shade(host, Get(m, "color"), "bg")
  }

  /** cursor: inherit when disabled, else pointer. */
  function Cursor(m: map<string, Value>): (r: Value)
    ensures Truthy(Get(m, "disabled")) <==> r == Str("inherit")
    ensures !Truthy(Get(m, "disabled")) <==> r == Str("pointer")
  {
    if Truthy(Get(m, "disabled")) then Str("inherit") else Str("pointer")
  }

  /** outlineWidth: a fifth of the size, rounded, in px. */
  function OutlineWidth(host: Host, m: map<string, Value>): (r: Value)
    ensures Get(m, "size").Num? ==> r == Str(CoreClass.Px(host, Round(Get(m, "size").n / 5.0)))
  {
    Str(CoreClass.Px(host, Round(Numeric(host, Get(m, "size")) / 5.0)))
  }

  /** The inline table of active. */
  function Inline(host: Host): map<string, InlineRule> {
    map[
      "outlineColor" := Derive(m => OutlineColor(host, m)),
      "cursor" := Derive(m => Cursor(m)),
      "outlineWidth" := Derive(m => OutlineWidth(host, m))
    ]
  }

  // ---------------------------------------------------------------- sheet producers

  /** How far the background is nudged on hover and press: -0.15 per unit of `hover`. */
  function BackgroundNudge(host: Host, m: map<string, Value>): (d: real)
    ensures Get(m, "hover") == Bool(true) ==> d == -0.15
    ensures Get(m, "hover") == Bool(false) ==> d == 0.0
  {
    -0.15 * GetScalar(host, Get(m, "hover"))
  }

  /** How far the text colour is nudged: (bg ? -0.2 : 0.8) per unit of `hover`. */
  function TextNudge(host: Host, m: map<string, Value>): (d: real)
    ensures Get(m, "hover") == Bool(true) ==> d == (if Truthy(Get(m, "bg")) then -0.2 else 0.8)
    ensures Get(m, "hover") == Bool(false) ==> d == 0.0
  {
    (if Truthy(Get(m, "bg")) then -0.2 else 0.8) * GetScalar(host, Get(m, "hover"))
  }

  /** The nudged background shade, bgColor.nudge(…).bg. */
  function PressedBackground(host: Host, m: map<string, Value>): string {
    Text(host, Shade(host, NudgeOf(Get(m, "bgColor"), BackgroundNudge(host, m)), "bg"))
  }

  /** The nudged text shade, color.nudge(…).fg. */
  function PressedText(host: Host, m: map<string, Value>): string {
    Text(host, Shade(host, NudgeOf(Get(m, "color"), TextNudge(host, m)), "fg"))
  }

  /** A declaration under &:hover. */
  function HoverRule(declaration: string): string {
    "\n\t\t\t&:hover{\n\t\t\t\t" + declaration + " !important;\n\t\t\t}\n    "
  }

  /** A declaration applied directly, for the pressed state. */
  function PressRule(declaration: string): string {
    "\n      " + declaration + " !important;\n    "
  }

  /** hover && bg && rule: the hover background, only for a hovering element with a background. */
  function HoverBackground(host: Host, m: map<string, Value>): (r: Value)
    ensures Truthy(r) <==> Truthy(Get(m, "hover")) && Truthy(Get(m, "bg"))
    ensures Truthy(r) ==> r == Str(HoverRule("background:" + PressedBackground(host, m)))
  {
    And(And(Get(m, "hover"), Get(m, "bg")), Str(HoverRule("background:" + PressedBackground(host, m))))
  }

  /** active && bg && rule: the pressed background, only for an active element with a background. */
  function ActiveBackground(host: Host, m: map<string, Value>): (r: Value)
    ensures Truthy(r) <==> Truthy(Get(m, "active")) && Truthy(Get(m, "bg"))
    ensures Truthy(r) ==> r == Str(PressRule("background:" + PressedBackground(host, m)))
  {
    And(And(Get(m, "active"), Get(m, "bg")), Str(PressRule("background:" + PressedBackground(host, m))))
  }

  /** hover && rule: the hover text colour, with or without a background. */
  function HoverText(host: Host, m: map<string, Value>): (r: Value)
    ensures Truthy(r) <==> Truthy(Get(m, "hover"))
    ensures Truthy(r) ==> r == Str(HoverRule("color:" + PressedText(host, m)))
  {
    And(Get(m, "hover"), Str(HoverRule("color:" + PressedText(host, m))))
  }

  /** active && rule: the pressed text colour, with or without a background. */
  function ActiveText(host: Host, m: map<string, Value>): (r: Value)
    ensures Truthy(r) <==> Truthy(Get(m, "active"))
    ensures Truthy(r) ==> r == Str(PressRule("color:" + PressedText(host, m)))
  {
    And(Get(m, "active"), Str(PressRule("color:" + PressedText(host, m))))
  }

  /** The sheet of active. */
  function Styles(host: Host): (t: Template<Interp>)
    ensures WellFormed(t) && |t.values| == 4
  {
    Css(["\n    user-select: none;\n    outline-offset: -2px;\n\n    ",
         " \n\n    ",
         " \n\n    ",
         "\n    \n    ",
         " \n  "],
        [Produce((m, a) => HoverBackground(host, m)),
         Produce((m, a) => ActiveBackground(host, m)),
         Produce((m, a) => HoverText(host, m)),
         Produce((m, a) => ActiveText(host, m))])
  }

  // ---------------------------------------------------------------- props

  /** The props table of active: hover on and active off by default. */
  function Props(): map<string, PropConfig> {
    map[
      "hover" := CoreClass.Fixed(Bool(true)),
      "active" := CoreClass.Fixed(Bool(false))
    ]
  }

  /** The active class. */
  function Active(host: Host): StyleClass {
    StyleClass(Some(Inline(host)), Styles(host), Props())
  }

  // ---------------------------------------------------------------- what the class guarantees

  /** Without overrides, an element hovers and is not pressed, whatever the theme. */
  lemma HoverOnActiveOff(s: Scope)
    requires CompValue(s, "hover") == Given(Undef) && CompValue(s, "active") == Given(Undef)
    ensures Resolvable(Props())
    ensures GetValue(Props(), s, "hover") == Bool(true)
    ensures GetValue(Props(), s, "active") == Bool(false)
  {
    ShallowIsResolvable(Props());
    FixedWithoutOverride(Props(), s, "hover");
    FixedWithoutOverride(Props(), s, "active");
  }

  /** Pressing shows the shades hovering shows: the same nudge of the same colour, background and text alike. */
  lemma PressMatchesHover(host: Host, m: map<string, Value>)
    requires Truthy(Get(m, "hover")) && Truthy(Get(m, "active"))
    ensures HoverText(host, m) == Str(HoverRule("color:" + PressedText(host, m)))
    ensures ActiveText(host, m) == Str(PressRule("color:" + PressedText(host, m)))
    ensures Truthy(Get(m, "bg")) ==>
      && HoverBackground(host, m) == Str(HoverRule("background:" + PressedBackground(host, m)))
      && ActiveBackground(host, m) == Str(PressRule("background:" + PressedBackground(host, m)))
  {
  }

  /** With the default props (hover on, active off) only the hover rules are produced, the background one only with bg. */
  lemma DefaultsProduceHoverOnly(host: Host, m: map<string, Value>)
    requires Get(m, "hover") == Bool(true) && Get(m, "active") == Bool(false)
    ensures Truthy(HoverText(host, m)) && !Truthy(ActiveText(host, m)) && !Truthy(ActiveBackground(host, m))
    ensures Truthy(HoverBackground(host, m)) <==> Truthy(Get(m, "bg"))
    ensures TextNudge(host, m) == (if Truthy(Get(m, "bg")) then -0.2 else 0.8)
  {
  }

  /** The cursor turns to inherit exactly when the element is disabled. */
  lemma CursorFollowsDisabled(host: Host, m: map<string, Value>)
    ensures var entries := ClassInline(Some(Inline(host)), m);
      && "cursor" in entries
      && (entries["cursor"] == Str("inherit") <==> Truthy(Get(m, "disabled")))
  {
    var entries := ClassInline(Some(Inline(host)), m);
    assert entries["cursor"] == Cursor(m);
  }
}
