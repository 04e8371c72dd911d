/**
 * The shapes of src/types.ts: templates, interpolations, style classes and
 * the per-property configuration, plus the theme overrides a component
 * receives through `styles`.
 */
module Types {
  import opened Wrappers
  import opened Js

  /** CssTemplate / RawTemplate: the chunks of a tagged template and the values between them. */
  datatype Template<T> = Template(strings: seq<string>, values: seq<T>)

  /** A template whose chunks surround its values: one more chunk than values. */
  predicate WellFormed<T>(t: Template<T>) {
    |t.strings| == |t.values| + 1
  }

  /** interp<P>: a literal, or a producer applied to (computed theme props, attribute props). */
  datatype Interp =
    | Lit(v: Value)
    | Produce(f: (map<string, Value>, map<string, Value>) -> Value)

  /** An entry of a class's inline style: a literal, or a producer applied to the computed theme props. */
  datatype InlineRule =
    | Fixed(v: Value)
    | Derive(f: map<string, Value> -> Value)

  /** A property's `default`: a value, or a function of the value of the property it extends. */
  datatype Default =
    | Plain(v: Value)
    | Derived(f: Value -> Value)

  /**
   * One entry of a class's `props` table. `extendsProp` (the source's
   * `extends`) names the property it extends, "" when absent (an empty name
   * is falsy and so never followed); `mapper` is the source's `map`.
   */
  datatype PropConfig = PropConfig(
    default: Default,
    inherit: bool,
    extendsProp: string,
    mapper: Option<Value -> Value>)

  /** StyleClass<P>: optional inline producers, a sheet template and the props table. */
  datatype StyleClass = StyleClass(
    inline: Option<map<string, InlineRule>>,
    styles: Template<Interp>,
    props: map<string, PropConfig>)

  /** An entry of ThemeArgs: a value, or a function of (theme value, attribute props). */
  datatype Override =
    | Given(v: Value)
    | Computed(f: (Value, map<string, Value>) -> Value)

  /** How getValue treats an override. */
  datatype OverrideKind = Undefined | InheritSentinel | Fn | Literal

  /** `=== undefined`, `=== 'inherit'` and `_.isFunction`, in the order getValue tests them. */
  function Kind(o: Override): OverrideKind {
    match o
    case Computed(_) => Fn
    case Given(v) =>
      if v == Undef then Undefined
      else if v == Str("inherit") then InheritSentinel
      else Literal
  }

  /** Truthiness of an override: a function is always truthy. */
  predicate OverrideTruthy(o: Override) {
    o.Computed? || Truthy(o.v)
  }

  /** obj[key] over a map of overrides: a missing key is undefined. */
  function GetOverride(m: map<string, Override>, key: string): Override {
    if key in m then m[key] else Given(Undef)
  }
}
