/**
 * The pure core of a ctyled component (src/index.tsx): resolving each
 * theme property, the computed props and the theme handed to children, the
 * style-sheet text, the inline style filtered against the parent's, and the
 * builder methods that derive a new component configuration.
 */
module Component {
  import opened Wrappers
  import opened Js
  import opened Types
  import opened Util

  // ---------------------------------------------------------------- extends chains

  /**
   * The number of `extends` steps from `name` to a property that extends
   * nothing, following at most `fuel` steps; None when the chain leaves the
   * props table or needs more steps.
   */
  function ChainLength(props: map<string, PropConfig>, name: string, fuel: nat): Option<nat>
    decreases fuel
  {
    if name !in props then None
    else if props[name].extendsProp == "" then Some(0)
    else if fuel == 0 then None
    else
      match ChainLength(props, props[name].extendsProp, fuel - 1)
      case Some(n) => Some(n + 1)
      case None => None
  }

  /** More fuel never changes a chain that already ended. */
  lemma {:induction false} ChainLengthMoreFuel(props: map<string, PropConfig>, name: string, fuel: nat, more: nat)
    requires fuel <= more && ChainLength(props, name, fuel).Some?
    ensures ChainLength(props, name, more) == ChainLength(props, name, fuel)
    decreases fuel
  {
    if name in props && props[name].extendsProp != "" {
      ChainLengthMoreFuel(props, props[name].extendsProp, fuel - 1, more - 1);
    }
  }

  /** The chain from `name` ends at a declared property: some number of steps suffices. */
  ghost predicate Grounded(props: map<string, PropConfig>, name: string) {
    exists fuel: nat :: ChainLength(props, name, fuel).Some?
  }

  /**
   * A props table getValue can resolve: every `extends` chain ends at a
   * declared property, and a function default appears only on a property
   * that extends another (elsewhere the function itself would be the value).
   */
  ghost predicate Resolvable(props: map<string, PropConfig>) {
    forall name :: name in props ==>
      && Grounded(props, name)
      && (props[name].default.Derived? ==> props[name].extendsProp != "")
  }

  /** Enough steps for the chain from a grounded property to end. */
  ghost function GroundingFuel(props: map<string, PropConfig>, name: string): (fuel: nat)
    requires Grounded(props, name)
    ensures ChainLength(props, name, fuel).Some?
  {
    var fuel: nat :| ChainLength(props, name, fuel).Some?; fuel
  }

  /** The length of the chain from a grounded property, the measure getValue's recursion decreases. */
  ghost function Depth(props: map<string, PropConfig>, name: string): nat
    requires Grounded(props, name)
  {
    ChainLength(props, name, GroundingFuel(props, name)).value
  }

  /** Every amount of fuel that suffices gives the same length. */
  lemma ChainLengthUnique(props: map<string, PropConfig>, name: string, f1: nat, f2: nat)
    requires ChainLength(props, name, f1).Some? && ChainLength(props, name, f2).Some?
    ensures ChainLength(props, name, f1) == ChainLength(props, name, f2)
  {
    if f1 <= f2 {
      ChainLengthMoreFuel(props, name, f1, f2);
    } else {
      ChainLengthMoreFuel(props, name, f2, f1);
    }
  }

  /** The property a grounded property extends is declared and strictly closer to the end of the chain. */
  lemma ParentShallower(props: map<string, PropConfig>, name: string)
    requires Resolvable(props) && name in props && props[name].extendsProp != ""
    ensures props[name].extendsProp in props
    ensures Grounded(props, props[name].extendsProp)
    ensures Depth(props, props[name].extendsProp) < Depth(props, name)
  {
    var parent := props[name].extendsProp;
    var f := GroundingFuel(props, name);
    assert ChainLength(props, parent, f - 1).Some?;
    ChainLengthUnique(props, parent, f - 1, GroundingFuel(props, parent));
  }

  /**
   * Tables whose `extends` go at most one step (to a property that extends
   * nothing), with function defaults only on extending properties, are
   * resolvable; every table in the built-in classes has this shape.
   */
  predicate Shallow(props: map<string, PropConfig>) {
    forall name :: name in props ==>
      && (props[name].extendsProp != "" ==>
            props[name].extendsProp in props && props[props[name].extendsProp].extendsProp == "")
      && (props[name].default.Derived? ==> props[name].extendsProp != "")
  }

  lemma ShallowIsResolvable(props: map<string, PropConfig>)
    requires Shallow(props)
    ensures Resolvable(props)
  {
    forall name | name in props
      ensures Grounded(props, name)
    {
      assert ChainLength(props, name, 1).Some?;
    }
  }

  /** A ring of properties each extending the next never ends, whatever the fuel, so a table holding one is not Resolvable. */
  lemma {:induction false} CycleNeverGrounded(props: map<string, PropConfig>, ring: seq<string>, fuel: nat)
    requires |ring| > 0
    requires forall i :: 0 <= i < |ring| ==> ring[i] in props && ring[i] != ""
    requires forall i :: 0 <= i < |ring| ==> props[ring[i]].extendsProp == ring[(i + 1) % |ring|]
    ensures forall i :: 0 <= i < |ring| ==> ChainLength(props, ring[i], fuel).None?
    decreases fuel
  {
    if fuel > 0 {
      CycleNeverGrounded(props, ring, fuel - 1);
    }
    forall i | 0 <= i < |ring|
      ensures ChainLength(props, ring[i], fuel).None?
    {
      RingStep(props, ring, fuel, i);
    }
  }

  /** One property of the ring: it extends the next one, whose chain did not end with one step less. */
  lemma RingStep(props: map<string, PropConfig>, ring: seq<string>, fuel: nat, i: nat)
    requires i < |ring|
    requires forall j :: 0 <= j < |ring| ==> ring[j] in props && ring[j] != ""
    requires forall j :: 0 <= j < |ring| ==> props[ring[j]].extendsProp == ring[(j + 1) % |ring|]
    requires fuel > 0 ==> forall j :: 0 <= j < |ring| ==> ChainLength(props, ring[j], fuel - 1).None?
    ensures ChainLength(props, ring[i], fuel).None?
  {
    var next := (i + 1) % |ring|;
    assert props[ring[i]].extendsProp == ring[next] && ring[next] != "";
    if fuel > 0 {
      assert ChainLength(props, ring[next], fuel - 1).None?;
    }
  }

  // ---------------------------------------------------------------- getValue

  /** What getValue reads besides the props table. */
  datatype Scope = Scope(
    theme: map<string, Value>,
    styles: map<string, Override>,
    themeProps: map<string, Override>,
    attrProps: map<string, Value>)

  /**
   * The default a property starts from: without `extends`, its own default;
   * with `extends`, the extended property's value, passed through the
   * default when that is a function (a literal default is ignored).
   */
  function DefaultFromConfig(props: map<string, PropConfig>, s: Scope, name: string): (r: Value)
    requires Resolvable(props) && name in props
    ensures props[name].extendsProp == "" ==> r == props[name].default.v
    decreases Depth(props, name), 0
  {
    var cfg := props[name];
    if cfg.extendsProp != "" then
      ParentShallower(props, name);
      var superValue := GetValue(props, s, cfg.extendsProp);
      match cfg.default
      case Derived(f) => f(superValue)
      case Plain(_) => superValue
    else
      cfg.default.v
  }

  /** The theme value: for an inheriting property the theme's entry when truthy, else the default. */
  function ThemeValue(cfg: PropConfig, theme: map<string, Value>, name: string, dflt: Value): (r: Value)
    ensures !cfg.inherit ==> r == dflt
    ensures cfg.inherit && Truthy(Get(theme, name)) ==> r == theme[name]
    ensures cfg.inherit && !Truthy(Get(theme, name)) ==> r == dflt
  {
    if cfg.inherit then Or(Get(theme, name), dflt) else dflt
  }

  /** styles[name] || themeProps[name]: the instance's override when truthy, else the class-level one. */
  function CompValue(s: Scope, name: string): (r: Override)
    ensures r == GetOverride(s.styles, name) || r == GetOverride(s.themeProps, name)
    ensures OverrideTruthy(GetOverride(s.styles, name)) ==> r == GetOverride(s.styles, name)
  {
    var own := GetOverride(s.styles, name);
    if OverrideTruthy(own) then own else GetOverride(s.themeProps, name)
  }

  /** The property's `map`, when present, applied to a value. */
  function Mapped(cfg: PropConfig, v: Value): (r: Value)
    ensures cfg.mapper.None? ==> r == v
  {
    if cfg.mapper.Some? then cfg.mapper.value(v) else v
  }

  /** getValue: the override by kind, falling back to the theme value, then `map`. */
  function GetValue(props: map<string, PropConfig>, s: Scope, name: string): (r: Value)
    requires Resolvable(props) && name in props
    ensures Kind(CompValue(s, name)) == Literal && props[name].mapper.None? ==> r == CompValue(s, name).v
    decreases Depth(props, name), 1
  {
    var cfg := props[name];
    var dflt := DefaultFromConfig(props, s, name);
    var themeValue := ThemeValue(cfg, s.theme, name, dflt);
    var compValue := CompValue(s, name);
    var finalValue :=
      match Kind(compValue)
      case Undefined => themeValue
      case InheritSentinel => Or(Get(s.theme, name), dflt)
      case Fn => compValue.f(themeValue, s.attrProps)
      case Literal => compValue.v;
    Mapped(cfg, finalValue)
  }

  /** With `extends`, the extended property is resolved first and the default is applied to it, or ignored when literal. */
  lemma ExtendsResolvedFirst(props: map<string, PropConfig>, s: Scope, name: string)
    requires Resolvable(props) && name in props
    ensures props[name].extendsProp == "" ==> DefaultFromConfig(props, s, name) == props[name].default.v
    ensures props[name].extendsProp != "" ==>
      && props[name].extendsProp in props
      && var superValue := GetValue(props, s, props[name].extendsProp);
         DefaultFromConfig(props, s, name)
           == if props[name].default.Derived? then props[name].default.f(superValue) else superValue
  {
    if props[name].extendsProp != "" {
      ParentShallower(props, name);
    }
  }

  /**
   * The precedence of getValue, case by case on the override
   * (styles[name] || themeProps[name]); `map` is applied once, last.
   */
  lemma OverridePrecedence(props: map<string, PropConfig>, s: Scope, name: string)
    requires Resolvable(props) && name in props
    ensures var cfg := props[name];
      var dflt := DefaultFromConfig(props, s, name);
      var themeValue := if cfg.inherit then Or(Get(s.theme, name), dflt) else dflt;
      var comp := CompValue(s, name);
      && (comp == Given(Undef) ==> GetValue(props, s, name) == Mapped(cfg, themeValue))
      && (comp == Given(Str("inherit")) ==> GetValue(props, s, name) == Mapped(cfg, Or(Get(s.theme, name), dflt)))
      && (comp.Computed? ==> GetValue(props, s, name) == Mapped(cfg, comp.f(themeValue, s.attrProps)))
      && (comp.Given? && comp.v != Undef && comp.v != Str("inherit") ==> GetValue(props, s, name) == Mapped(cfg, comp.v))
  {
  }

  /** A truthy instance override beats the class-level one; a falsy one falls through to it, even when that one is falsy too. */
  lemma InstanceStylesFirst(s: Scope, name: string)
    ensures OverrideTruthy(GetOverride(s.styles, name)) ==> CompValue(s, name) == s.styles[name]
    ensures !OverrideTruthy(GetOverride(s.styles, name)) ==> CompValue(s, name) == GetOverride(s.themeProps, name)
  {
  }

  /** A theme entry is read only for an inheriting property or an 'inherit' override, and only when truthy. */
  lemma InheritOnlyFromTheme(props: map<string, PropConfig>, s: Scope, name: string)
    requires Resolvable(props) && name in props
    requires CompValue(s, name) == Given(Undef)
    ensures props[name].inherit && Truthy(Get(s.theme, name)) ==>
      GetValue(props, s, name) == Mapped(props[name], s.theme[name])
    ensures !props[name].inherit || !Truthy(Get(s.theme, name)) ==>
      GetValue(props, s, name) == Mapped(props[name], DefaultFromConfig(props, s, name))
  {
  }

  /** Without an override, a property that extends and neither inherits nor maps is its default applied to the extended value. */
  lemma ExtendedWithoutOverride(props: map<string, PropConfig>, s: Scope, name: string)
    requires Resolvable(props) && name in props
    requires props[name].extendsProp != "" && !props[name].inherit && props[name].mapper.None?
    requires CompValue(s, name) == Given(Undef)
    ensures props[name].extendsProp in props
    ensures props[name].default.Derived? ==>
      GetValue(props, s, name) == props[name].default.f(GetValue(props, s, props[name].extendsProp))
    ensures props[name].default.Plain? ==>
      GetValue(props, s, name) == GetValue(props, s, props[name].extendsProp)
  {
    ExtendsResolvedFirst(props, s, name);
  }

  /** Without an override, an inheriting property with a literal default that neither extends nor maps takes the theme's value when truthy. */
  lemma InheritedWithoutOverride(props: map<string, PropConfig>, s: Scope, name: string)
    requires Resolvable(props) && name in props
    requires props[name].extendsProp == "" && props[name].inherit && props[name].mapper.None?
    requires CompValue(s, name) == Given(Undef)
    ensures GetValue(props, s, name) == Or(Get(s.theme, name), props[name].default.v)
  {
    ExtendsResolvedFirst(props, s, name);
  }

  /** Without an override, a property that neither inherits, extends nor maps is its literal default, whatever the theme. */
  lemma FixedWithoutOverride(props: map<string, PropConfig>, s: Scope, name: string)
    requires Resolvable(props) && name in props
    requires props[name].extendsProp == "" && !props[name].inherit && props[name].mapper.None?
    requires CompValue(s, name) == Given(Undef)
    ensures GetValue(props, s, name) == props[name].default.v
  {
    ExtendsResolvedFirst(props, s, name);
  }

  /** The instance overrides with their falsy entries removed. */
  function TruthyOnly(styles: map<string, Override>): (r: map<string, Override>)
    ensures forall k :: k in r <==> k in styles && OverrideTruthy(styles[k])
  {
    map k | k in styles && OverrideTruthy(styles[k]) :: styles[k]
  }

  /** Falsy instance overrides (false, 0, '', null, undefined) have no effect on any property. */
  lemma {:induction false} FalsyStylesIgnored(props: map<string, PropConfig>, s: Scope, name: string)
    requires Resolvable(props) && name in props
    ensures GetValue(props, s, name) == GetValue(props, s.(styles := TruthyOnly(s.styles)), name)
    ensures DefaultFromConfig(props, s, name) == DefaultFromConfig(props, s.(styles := TruthyOnly(s.styles)), name)
    decreases Depth(props, name)
  {
    var s' := s.(styles := TruthyOnly(s.styles));
    if props[name].extendsProp != "" {
      ParentShallower(props, name);
      FalsyStylesIgnored(props, s, props[name].extendsProp);
    }
    assert CompValue(s, name) == CompValue(s', name);
  }

  /** Properties none of which inherits, with no 'inherit' override, resolve the same under every theme. */
  lemma {:induction false} ThemeUnusedWithoutInherit(props: map<string, PropConfig>, s: Scope, theme': map<string, Value>, name: string)
    requires Resolvable(props) && name in props
    requires forall k :: k in props ==> !props[k].inherit
    requires forall k :: k in props ==> Kind(CompValue(s, k)) != InheritSentinel
    ensures GetValue(props, s, name) == GetValue(props, s.(theme := theme'), name)
    ensures DefaultFromConfig(props, s, name) == DefaultFromConfig(props, s.(theme := theme'), name)
    decreases Depth(props, name)
  {
    if props[name].extendsProp != "" {
      ParentShallower(props, name);
      ThemeUnusedWithoutInherit(props, s, theme', props[name].extendsProp);
    }
    assert CompValue(s, name) == CompValue(s.(theme := theme'), name);
  }

  // ---------------------------------------------------------------- computed props and child theme

  /** computedThemeProps: getValue for every declared property, and nothing else. */
  function ComputedProps(props: map<string, PropConfig>, s: Scope): (r: map<string, Value>)
    requires Resolvable(props)
    ensures r.Keys == props.Keys
    ensures forall k :: k in r ==> r[k] == GetValue(props, s, k)
  {
    map k | k in props :: GetValue(props, s, k)
  }

  /** lastChildTheme: the parent theme overlaid with the computed props. */
  function ChildTheme(theme: map<string, Value>, computed: map<string, Value>): (r: map<string, Value>)
    ensures r.Keys == theme.Keys + computed.Keys
    ensures forall k :: k in computed ==> r[k] == computed[k]
    ensures forall k :: k in theme && k !in computed ==> r[k] == theme[k]
  {
    theme + computed
  }

  // ---------------------------------------------------------------- sheet

  /** Each interpolation evaluated: producers applied to (computed props, attribute props), literals kept. */
  function Evaluate(interps: seq<Interp>, computed: map<string, Value>, attrs: map<string, Value>): (vs: seq<Value>)
    ensures |vs| == |interps|
    ensures forall i :: 0 <= i < |interps| ==>
      vs[i] == match interps[i] case Lit(v) => v case Produce(f) => f(computed, attrs)
  {
    if |interps| == 0 then []
    else
      var last := match interps[|interps| - 1] case Lit(v) => v case Produce(f) => f(computed, attrs);
      Evaluate(interps[..|interps| - 1], computed, attrs) + [last]
  }

  /** The template with its interpolations evaluated. */
  function EvalTemplate(t: Template<Interp>, computed: map<string, Value>, attrs: map<string, Value>): Template<Value> {
    Template(t.strings, Evaluate(t.values, computed, attrs))
  }

  /** Evaluating commutes with joining. */
  lemma EvalJoin(a: Template<Interp>, b: Template<Interp>, computed: map<string, Value>, attrs: map<string, Value>)
    ensures EvalTemplate(Join(a, b), computed, attrs)
         == Join(EvalTemplate(a, computed, attrs), EvalTemplate(b, computed, attrs))
  {
    var l := Evaluate(a.values + b.values, computed, attrs);
    var r := Evaluate(a.values, computed, attrs) + Evaluate(b.values, computed, attrs);
    assert forall i :: 0 <= i < |l| ==> l[i] == r[i] by {
      forall i | 0 <= i < |l| ensures l[i] == r[i] {
        if i < |a.values| {
          assert (a.values + b.values)[i] == a.values[i];
        } else {
          assert (a.values + b.values)[i] == b.values[i - |a.values|];
        }
      }
    }
  }

  /** The sheet text: the class's styles joined with the extended sheet, evaluated and interpolated. */
  function SheetText(host: Host, classStyles: Template<Interp>, sheetStyle: Template<Interp>,
                     computed: map<string, Value>, attrs: map<string, Value>): string
  {
    Interpolate(host, EvalTemplate(Join(classStyles, sheetStyle), computed, attrs))
  }

  /** The sheet is the class's own sheet text followed by the extension's. */
  lemma SheetTextSplits(host: Host, classStyles: Template<Interp>, sheetStyle: Template<Interp>,
                        computed: map<string, Value>, attrs: map<string, Value>)
    requires Composable(classStyles)
    ensures SheetText(host, classStyles, sheetStyle, computed, attrs)
         == Interpolate(host, EvalTemplate(classStyles, computed, attrs))
          + Interpolate(host, EvalTemplate(sheetStyle, computed, attrs))
  {
    EvalJoin(classStyles, sheetStyle, computed, attrs);
    InterpolateJoin(host, EvalTemplate(classStyles, computed, attrs), EvalTemplate(sheetStyle, computed, attrs));
  }

  // ---------------------------------------------------------------- inline style

  /** The class's inline entries, producers applied to the computed props; no inline table gives {}. */
  function ClassInline(inline: Option<map<string, InlineRule>>, computed: map<string, Value>): (r: map<string, Value>)
    ensures inline.None? ==> r == map[]
    ensures inline.Some? ==> r.Keys == inline.value.Keys
  {
    match inline
    case None => map[]
    case Some(rules) =>
      map k | k in rules :: match rules[k] case Fixed(v) => v case Derive(f) => f(computed)
  }

  /** The extended inline template, evaluated, interpolated and read back by cssToInline. */
  function ExtendedInline(host: Host, inlineStyle: Template<Interp>, computed: map<string, Value>,
                          attrs: map<string, Value>): (r: map<string, Value>)
    ensures forall k :: k in r ==> r[k].Str?
  {
    var entries := CssToInline(host, Str(Interpolate(host, EvalTemplate(inlineStyle, computed, attrs))));
    map k | k in entries :: Str(entries[k])
  }

  /** The three inline sources overlaid: class entries, then the extension's, then the element's `style`. */
  function Merged(classInline: map<string, Value>, extended: map<string, Value>,
                  style: Option<map<string, Value>>): (r: map<string, Value>)
    ensures r.Keys == classInline.Keys + extended.Keys + style.GetOr(map[]).Keys
    ensures forall k :: k in style.GetOr(map[]) ==> r[k] == style.value[k]
    ensures forall k :: k in extended && k !in style.GetOr(map[]) ==> r[k] == extended[k]
    ensures forall k :: k in classInline && k !in extended && k !in style.GetOr(map[]) ==> r[k] == classInline[k]
  {
    classInline + extended + style.GetOr(map[])
  }

  /** pickBy: an inherited property is dropped when it equals the parent's value; every other entry is kept. */
  function InlineStyle(merged: map<string, Value>, pstyle: map<string, Value>, inherited: set<string>): (r: map<string, Value>)
    ensures forall k :: k in r <==> k in merged && (k !in inherited || Get(pstyle, k) != merged[k])
    ensures forall k :: k in r ==> r[k] == merged[k]
  {
    map k | k in merged && (k !in inherited || Get(pstyle, k) != merged[k]) :: merged[k]
  }

  /** The child's pstyle: the parent's, overlaid with this element's inherited inline entries. */
  function ChildPstyle(pstyle: map<string, Value>, inline: map<string, Value>, inherited: set<string>): (r: map<string, Value>)
    ensures forall k :: k in inline && k in inherited ==> k in r && r[k] == inline[k]
    ensures forall k :: k in pstyle && !(k in inline && k in inherited) ==> k in r && r[k] == pstyle[k]
    ensures r.Keys <= pstyle.Keys + inline.Keys
  {
    pstyle + map k | k in inline && k in inherited :: inline[k]
  }

  /** Whether or not the entry was dropped, the child's pstyle holds the value this element effectively has. */
  lemma ChildPstyleTracksInherited(merged: map<string, Value>, pstyle: map<string, Value>, inherited: set<string>, k: string)
    requires k in inherited && k in merged
    ensures Get(ChildPstyle(pstyle, InlineStyle(merged, pstyle, inherited), inherited), k) == merged[k]
  {
  }

  /** A child repeating its parent's inherited value omits it from its own inline style. */
  lemma NestedRepeatOmitted(merged: map<string, Value>, pstyle: map<string, Value>, inherited: set<string>,
                            childMerged: map<string, Value>, k: string)
    requires k in inherited && k in merged && k in childMerged && childMerged[k] == merged[k]
    ensures k !in InlineStyle(childMerged, ChildPstyle(pstyle, InlineStyle(merged, pstyle, inherited), inherited), inherited)
  {
    ChildPstyleTracksInherited(merged, pstyle, inherited, k);
  }

  // ---------------------------------------------------------------- configuration and builders

  /** What constructor(Element, classDef, themeProps, inlineStyle, sheetStyle, defaultAttrs) closes over. */
  datatype Config = Config(
    classDef: StyleClass,
    themeProps: map<string, Override>,
    inlineStyle: Template<Interp>,
    sheetStyle: Template<Interp>,
    defaultAttrs: Option<map<string, Value>>)

  /** constructor: missing theme props become {}, missing templates the empty template. */
  function Construct(classDef: StyleClass, themeProps: Option<map<string, Override>>,
                     inlineStyle: Option<Template<Interp>>, sheetStyle: Option<Template<Interp>>,
                     defaultAttrs: Option<map<string, Value>>): (c: Config)
    ensures c.classDef == classDef && c.defaultAttrs == defaultAttrs
    ensures c.themeProps == themeProps.GetOr(map[])
    ensures c.inlineStyle == inlineStyle.GetOr(EmptyTemplate())
    ensures c.sheetStyle == sheetStyle.GetOr(EmptyTemplate())
  {
    Config(classDef, themeProps.GetOr(map[]), inlineStyle.GetOr(EmptyTemplate()),
           sheetStyle.GetOr(EmptyTemplate()), defaultAttrs)
  }

  /** The attribute names: the keys of defaultAttrs, none without it. */
  function AttrNames(c: Config): set<string> {
    match c.defaultAttrs
    case Some(m) => m.Keys
    case None => {}
  }

  /** attrProps: the element props named by the attributes, those present only. */
  function AttrProps(elementProps: map<string, Value>, names: set<string>): (r: map<string, Value>)
    ensures r.Keys == elementProps.Keys * names
    ensures forall k :: k in r ==> r[k] == elementProps[k]
  {
    map k | k in elementProps && k in names :: elementProps[k]
  }

  /** .styles(newThemeProps): the class-level overrides overlaid, the new ones winning; nothing else changes. */
  function WithStyles(c: Config, newThemeProps: map<string, Override>): (r: Config)
    ensures r.themeProps.Keys == c.themeProps.Keys + newThemeProps.Keys
    ensures forall k :: k in newThemeProps ==> r.themeProps[k] == newThemeProps[k]
    ensures forall k :: k in c.themeProps && k !in newThemeProps ==> r.themeProps[k] == c.themeProps[k]
    ensures r.(themeProps := c.themeProps) == c
  {
    c.(themeProps := c.themeProps + newThemeProps)
  }

  /** .extend`…`: the template appended to the inline extension; nothing else changes. */
  function Extend(c: Config, t: Template<Interp>): (r: Config)
    ensures r.inlineStyle.values == c.inlineStyle.values + t.values
    ensures r.inlineStyle == Join(c.inlineStyle, t)
    ensures r.(inlineStyle := c.inlineStyle) == c
  {
    c.(inlineStyle := Join(c.inlineStyle, t))
  }

  /** .extendInline`…`: the same as .extend. */
  function ExtendInline(c: Config, t: Template<Interp>): (r: Config)
    ensures r == Extend(c, t)
  {
    c.(inlineStyle := Join(c.inlineStyle, t))
  }

  /** .extendSheet`…`: the template put before the existing sheet extension; nothing else changes. */
  function ExtendSheet(c: Config, t: Template<Interp>): (r: Config)
    ensures r.sheetStyle.values == t.values + c.sheetStyle.values
    ensures r.sheetStyle == Join(t, c.sheetStyle)
    ensures r.(sheetStyle := c.sheetStyle) == c
  {
    c.(sheetStyle := Join(t, c.sheetStyle))
  }

  /** .class(newClass): the class merged with the new one, the new one winning; nothing else changes. */
  function WithClass(c: Config, newClass: StyleClass): (r: Config)
    ensures r.classDef == MergeClasses(c.classDef, newClass)
    ensures r.(classDef := c.classDef) == c
  {
    c.(classDef := MergeClasses(c.classDef, newClass))
  }

  /** .attrs(newAttrs): the default attributes overlaid, the new ones winning; nothing else changes. */
  function WithAttrs(c: Config, newAttrs: map<string, Value>): (r: Config)
    ensures r.defaultAttrs.Some?
    ensures AttrNames(r) == AttrNames(c) + newAttrs.Keys
    ensures forall k :: k in newAttrs ==> r.defaultAttrs.value[k] == newAttrs[k]
    ensures r.(defaultAttrs := c.defaultAttrs) == c
  {
    c.(defaultAttrs := Some(c.defaultAttrs.GetOr(map[]) + newAttrs))
  }

  /** Two .extend calls are one .extend with the two templates joined. */
  lemma ExtendTwice(c: Config, t1: Template<Interp>, t2: Template<Interp>)
    ensures Extend(Extend(c, t1), t2) == Extend(c, Join(t1, t2))
  {
    JoinAssociative(c.inlineStyle, t1, t2);
  }

  /** Two .extendSheet calls put the later template first. */
  lemma ExtendSheetTwice(c: Config, t1: Template<Interp>, t2: Template<Interp>)
    ensures ExtendSheet(ExtendSheet(c, t1), t2) == ExtendSheet(c, Join(t2, t1))
  {
    JoinAssociative(t2, t1, c.sheetStyle);
  }

  /** Two .styles calls are one with the overlays combined, the later winning. */
  lemma StylesTwice(c: Config, a: map<string, Override>, b: map<string, Override>)
    ensures WithStyles(WithStyles(c, a), b) == WithStyles(c, a + b)
  {
    assert (c.themeProps + a) + b == c.themeProps + (a + b);
  }

  /** Two .class calls are one with the two classes merged. */
  lemma ClassTwice(c: Config, a: StyleClass, b: StyleClass)
    ensures WithClass(WithClass(c, a), b) == WithClass(c, MergeClasses(a, b))
  {
    MergeAssociative(c.classDef, a, b);
  }

  /** The builders touch different fields, so extending the inline style and the sheet commute. */
  lemma ExtendsCommute(c: Config, t1: Template<Interp>, t2: Template<Interp>)
    ensures Extend(ExtendSheet(c, t2), t1) == ExtendSheet(Extend(c, t1), t2)
  {
  }

  // ---------------------------------------------------------------- rendering

  /** What a component reads from the context: the theme and the parent's inherited inline values. */
  datatype Context = Context(theme: map<string, Value>, pstyle: map<string, Value>)

  /** What an element is given: its props, its `styles` overrides and its `style`. */
  datatype Instance = Instance(props: map<string, Value>, styles: map<string, Override>, style: Option<map<string, Value>>)

  /** What a render computes: the resolved props, the sheet text, the inline style and the children's context. */
  datatype Output = Output(computed: map<string, Value>, sheet: string, inline: map<string, Value>, child: Context)

  /** One render of a configured component, with the inherited inline properties given. */
  function Render(host: Host, c: Config, ctx: Context, inst: Instance, inherited: set<string>): (o: Output)
    requires Resolvable(c.classDef.props)
    ensures o.computed.Keys == c.classDef.props.Keys
    ensures o.child.theme.Keys == ctx.theme.Keys + c.classDef.props.Keys
    ensures forall k :: k in o.inline && k in inherited ==> k in o.child.pstyle && o.child.pstyle[k] == o.inline[k]
  {
    var attrs := AttrProps(inst.props, AttrNames(c));
    var scope := Scope(ctx.theme, inst.styles, c.themeProps, attrs);
    var computed := ComputedProps(c.classDef.props, scope);
    var sheet := SheetText(host, c.classDef.styles, c.sheetStyle, computed, attrs);
    var merged := Merged(ClassInline(c.classDef.inline, computed),
                         ExtendedInline(host, c.inlineStyle, computed, attrs), inst.style);
    var inline := InlineStyle(merged, ctx.pstyle, inherited);
    Output(computed, sheet, inline, Context(ChildTheme(ctx.theme, computed), ChildPstyle(ctx.pstyle, inline, inherited)))
  }

  /** Every property the component declares reaches its children's theme with the value it resolved to. */
  lemma ChildrenSeeResolvedValues(host: Host, c: Config, ctx: Context, inst: Instance, inherited: set<string>, k: string)
    requires Resolvable(c.classDef.props) && k in c.classDef.props
    ensures var o := Render(host, c, ctx, inst, inherited);
      o.child.theme[k] == GetValue(c.classDef.props,
        Scope(ctx.theme, inst.styles, c.themeProps, AttrProps(inst.props, AttrNames(c))), k)
  {
  }
}
