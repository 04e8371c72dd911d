# ctyled, modelled in Dafny

ctyled is a React styling library. A component is built from a style
class (`classDef`) made of three parts:

- props: each has a default, may inherit through the theme, may extend
  another prop, and may be passed through a mapper;
- an inline table, mapping each inline CSS property to a function of the
  computed props;
- a sheet template, a tagged CSS template whose interpolations are
  functions of the computed props.

Chainable builders derive new components from old ones:

- `styles`: class-level prop overrides;
- `extend`, `extendInline`, `extendSheet`: more CSS templates;
- `class`: merging another style class;
- `attrs`: default attributes.

When a component renders, it does four things:

1. Resolves every prop with `getValue`. The precedence is the instance's
   truthy override, then the class-level override, then the theme (for
   inheriting props), then the default, which is computed from the
   extended prop when there is one.
2. Interpolates the sheet.
3. Merges the class's inline entries, the extended inline CSS and the
   instance `style`.
4. Drops inherited entries equal to the parent's, and hands the resolved
   props to its children as their theme.

Colours (`Color`) are two colour scales sampled at a luminance and a
contrast. A scale is a list of colours with optional stop positions. The
transforms `nudge`, `contrast`, `invert`, `as`, `fgGrad`, `grad`, `absLum`
and `absContrast` return new colours.

The project has one Dafny module per source file:

| module | source |
|---|---|
| `Colors` (`colors.dfy`) | `src/color.ts` |
| `Util` (`util.dfy`) | `src/util.ts` |
| `Types` (`types.dfy`) | `src/types.ts` |
| `Component` (`component.dfy`) | `src/index.tsx` |
| `CoreClass` (`core.dfy`) | `src/classes/core.ts` |
| `ActiveClass` (`active.dfy`) | `src/classes/active.ts` |
| `InlineClass` (`inline.dfy`) | `src/classes/inline.ts` |

Two further modules support them:

- `Js` (`js.dfy`) models the JavaScript values the source passes around:
  - truthiness;
  - `||` and `&&`, which return one of their operands;
  - a missing key read as `undefined`;
  - coercion to a string or a number.
- `Wrappers` (`wrappers.dfy`) holds `Option`.

Capabilities the source takes from other libraries are fields of a `Host`
value passed in:

- tinycolor's `mix` and `toHexString` (the colour `Mixer`);
- lodash's `camelCase`;
- JavaScript's number-to-string conversion and `parseFloat`.

`getPositions` and `interpolateColor` are loops in the source, so they are
methods here, `Colors.GetPositions` and `Colors.InterpolateColor`. Each is
proved against a recursive specification function (`Positions`,
`Interpolated`), and properties of those functions are proved as lemmas.
The rest of the source is expressions and callbacks, and is modelled by
functions.

Some behaviours of the code that the model keeps as they are:

- A leading bare colour is placed at 0 (src/color.ts:17-19), and a trailing
  one at 1 (src/color.ts:20-22).
- An `extends` naming an undeclared prop is not checked: `getValue` reads a
  property of the missing config and throws (src/index.tsx:64-72).
- An inverted colour mirrors the sampling luminances (src/color.ts:152-160)
  and swaps `fg` with `fg2` and `bg` with `bg2` (src/color.ts:171-178).
- `nudge` fixes its inversion coefficient at 1, so it ignores `inverted`
  (src/color.ts:185-201).
- `inline`'s padding is not rounded (src/classes/inline.ts:9-16), while
  `core`'s is (src/classes/core.ts:71-72).

## Model

| member | source | states |
|---|---|---|
| Colors.PrevAnchor | src/color.ts:17-26 | The anchor before a bare colour is the nearest earlier explicit stop, or index 0 at position 0, and only bare colours lie between. |
| Colors.NextAnchor | src/color.ts:20-36 | The anchor after a bare colour is the nearest later explicit stop, or the last index at position 1, and only bare colours lie between. |
| Colors.Positions | src/color.ts:15-45 | The reference for getPositions, stop by stop; its properties are PositionsKeepEntries, LeadingBareAtZero, TrailingBareAtOne, BareBetweenAnchors and PositionsAscend, and GetPositions is proved equal to it. |
| Colors.GetPositions | src/color.ts:15-45 | The loop computes exactly the positioned scale `Positions(scale)`. |
| Colors.PlaceBare | src/color.ts:27-41 | The inner scan and slope place a bare colour where `Positions` does. |
| Colors.ScanNextStop | src/color.ts:29-36 | The forward scan stops at the next explicit stop, or at the end with position 1. |
| Colors.PositionsKeepEntries | src/color.ts:15-45 | Positioning keeps the length and every colour, and keeps explicit stops unchanged. |
| Colors.LeadingBareAtZero | src/color.ts:17-19 | A leading bare colour is placed at 0. |
| Colors.TrailingBareAtOne | src/color.ts:20-22 | A trailing bare colour is placed at 1. |
| Colors.BareBetweenAnchors | src/color.ts:37-40 | A bare colour is placed between its two anchors' positions. |
| Colors.AnchorsOrdered | src/color.ts:15-45 | With ascending explicit stops in [0, 1], the anchors are ordered within [0, 1]. |
| Colors.PositionsAscend | src/color.ts:15-45 | With ascending explicit stops, the computed positions ascend. |
| Colors.Clamp01 | src/color.ts:48 | The sample value is clamped into [0, 1], and kept when already inside. |
| Colors.FirstBracket | src/color.ts:49-53 | The search finds the first stop pair bracketing the value, and no earlier pair brackets it. |
| Colors.Select | src/color.ts:47-60 | Sampling blends the first bracketing pair, or gives the last stop when no pair brackets the value. |
| Colors.Interpolated | src/color.ts:47-60 | The reference for interpolateColor: mix the bracketing pair chosen by Select, or the last stop; its properties are BelowEveryStopGivesLast, AtOrPastLastGivesLast and OneStopIgnoresPosition, and InterpolateColor is proved equal to it. |
| Colors.InterpolateColor | src/color.ts:47-60 | The loop computes exactly `Interpolated(mix, scale, value)`. |
| Colors.BelowEveryStopGivesLast | src/color.ts:49-53 | A value below every stop gives the last colour, as the scan runs off the end. |
| Colors.AtOrPastLastGivesLast | src/color.ts:49-58 | A value at or past every stop gives the last colour. |
| Colors.OneStopIgnoresPosition | src/color.ts:47-60 | A one-stop scale gives its colour wherever it is sampled. |
| Colors.SingleBareColour | src/color.ts:15-60 | A scale of one bare colour gives that colour at every value. |
| Colors.GetColors | src/color.ts:81-116 | fg and bg sample the primary and secondary scales at the lums mapped to [0, 1]; without a gradient contrast, fg2 and bg2 equal them. |
| Colors.SampleLums | src/color.ts:152-160 | The two lums are twice the contrast apart, negated when inverted, and both equal lum at contrast 0. |
| Colors.SampleLumsInRange | src/color.ts:152-160 | For lum in [-1, 1] and contrast in [0, 1], both sampled lums lie in [-1, 1]. |
| Colors.InvertedMirrorsLums | src/color.ts:152-160 | Inverting samples the negated lum and negates both results. |
| Colors.OrNumber | src/color.ts:143-150 | A number argument `x || d` falls back exactly when it is missing or 0. |
| Colors.NewColor | src/color.ts:133-150 | The constructor defaults: black-to-white primary; secondary = primary; lum, nudgecoeff and the gradient contrasts via `||`; contrast 0.5 and inverted false only when undefined. |
| Colors.Shades | src/color.ts:161-184 | Without a gradient contrast, fg2 = fg and bg2 = bg. |
| Colors.InvertedSwapsEnds | src/color.ts:171-178 | An inverted colour swaps fg with fg2 and bg with bg2 of the sampled palette; a plain one keeps it. |
| Colors.DefaultColor | src/color.ts:133-150 | `new Color()` is black-to-white on both sides, lum 0, contrast 0.5, not inverted, nudgecoeff 1, solid. |
| Colors.ZeroArgumentsFallBack | src/color.ts:143-150 | An explicit contrast 0 is kept, while a nudgecoeff of 0 falls back to 1. |
| Colors.Serialize | src/color.ts:266-279 | The serial carries every constructor parameter of the colour. |
| Colors.RebuildIsIdentity | src/color.ts:266-279 | Building a colour from its own serial gives it back unchanged. |
| Colors.Nudge | src/color.ts:185-201 | lum steps by diff·(1 + 3·contrast)·nudgecoeff, or the same step the other way when that would leave [-1, 1]; nudgecoeff flips sign for diff ≥ 0; nothing else changes. |
| Colors.NudgeStaysInRange | src/color.ts:185-201 | A nudge of at most one unit keeps lum in [-1, 1]. |
| Colors.NudgeTwiceReturns | src/color.ts:185-201 | Two equal non-negative nudges that do not hit a bound return the original colour. |
| Colors.Contrast | src/color.ts:202-214 | The new contrast is old + diff, clamped to [0, 1]; nothing else changes. |
| Colors.Invert | src/color.ts:215-226 | Only `inverted` flips. |
| Colors.InvertInvolutive | src/color.ts:215-226 | Inverting twice is the identity. |
| Colors.As | src/color.ts:227-238 | Only the scales change: the new primary (default black-to-white) and the new secondary (default the new primary). |
| Colors.FgGrad | src/color.ts:239-250 | Only the fg gradient contrast changes, to the argument `\|\| 0`, with the scales swapped as `unserialize` swaps them. |
| Colors.Grad | src/color.ts:251-262 | Only the bg gradient contrast changes, to the argument `\|\| 0`, with the scales swapped. |
| Colors.AbsLum | src/color.ts:302-313 | Only lum changes, to the argument `\|\| 0`, with the scales swapped. |
| Colors.AbsContrast | src/color.ts:314-325 | Only contrast changes, to the argument or 0.5 when it is omitted, unclamped, with the scales swapped. |
| Colors.OmittedArgumentsReset | src/color.ts:143-149 | Called without an argument, absContrast resets contrast to 0.5 and absLum, fgGrad and grad reset to 0; an explicit contrast 0 is kept. |
| Colors.Unserialize | src/color.ts:280-301 | The serial's secondary becomes the primary, and its primary becomes the secondary. |
| Colors.SerialRoundTripSwaps | src/color.ts:266-301 | serialize then unserialize gives the same colour with primary and secondary swapped. |
| Colors.SerialRoundTripTwice | src/color.ts:266-301 | Two serialize/unserialize round trips give the colour back exactly. |
| Colors.ToString | src/color.ts:263-265 | The text is fg, then ", ", then bg. |
| Js.Or | src/index.tsx:77-84 | `a \|\| b` is a when a is truthy, else b. |
| Js.And | src/classes/core.ts:111-113 | `a && b` is a when a is falsy, else b. |
| Js.Get | src/index.tsx:64-77 | Reading a missing key gives undefined. |
| Js.Shade | src/classes/core.ts:65-69 | `color.fg` (bg, fg2, bg2) of a colour prop is that entry of its palette. |
| Js.Numeric | src/classes/core.ts:70 | Arithmetic coerces a number to itself, true to 1, false and null to 0. |
| Js.NudgeOf | src/classes/active.ts:23 | `bgColor.nudge(d)` of a colour prop is the nudged colour. |
| Util.Css | src/util.ts:8-13 | `css` keeps the template's strings and values, and the result is well formed. |
| Util.Join | src/util.ts:36-46 | Joining concatenates the values and fuses A's last chunk with B's first chunk, keeping the template well formed. |
| Util.JoinChunks | src/util.ts:40-45 | The joined chunks are A's body, the fused chunk, then B's rest. |
| Util.JoinIdentity | src/util.ts:36-46 | The empty template `[[], []]` is a left and right identity of join. |
| Util.JoinEmptyWithItself | src/util.ts:41-42 | Joining two empty templates gives one empty chunk. |
| Util.JoinAssociative | src/util.ts:36-46 | Join is associative. |
| Util.Piece | src/util.ts:51-53 | A chunk preceded by the value before it when that value is truthy; a falsy or missing value leaves the chunk alone. |
| Util.Interpolate | src/util.ts:48-55 | interpolateTemplate; its contract is carried by InterpolateStartsWithFirstChunk, InterpolateWithoutTruthyValues, InterpolateIgnoresLaterValues, InterpolateOneChunk and InterpolateJoin. |
| Util.InterpolateStartsWithFirstChunk | src/util.ts:48-55 | The interpolated text starts with the template's first chunk. |
| Util.InterpolateWithoutTruthyValues | src/util.ts:48-55 | With no truthy value, the text is the chunks concatenated: falsy values print as nothing. |
| Util.InterpolateIgnoresLaterValues | src/util.ts:48-55 | Values beyond the chunks are ignored. |
| Util.InterpolateJoin | src/util.ts:36-55 | Interpolating a join is the concatenation of the two interpolations. |
| Util.JoinLastChunk | src/util.ts:40-55 | B's last chunk stays last in the join, and emits the same piece there as in B. |
| Util.PieceShift | src/util.ts:50-53 | Prefixing values shifts a chunk's value index. |
| Util.PieceAppend | src/util.ts:50-53 | Extending a chunk extends its piece. |
| Util.PieceIgnoresLaterValues | src/util.ts:50-53 | A piece only reads values up to its own index. |
| Util.InterpolateOneChunk | src/util.ts:48-55 | A template of at most one chunk interpolates to that chunk. |
| Util.JoinSingleChunk | src/util.ts:36-55 | Join then interpolate splits when B has at most one chunk. |
| Util.EmptyThenOneChunk | src/util.ts:36-55 | Joining the empty template with a one-chunk template interpolates to that chunk. |
| Util.WellFormedThenOneChunk | src/util.ts:36-55 | A well-formed template joined with a one-chunk template interpolates to A's text followed by the chunk. |
| Util.DropSpace | src/util.ts:17 | Dropping leading whitespace leaves a suffix that does not start with whitespace. |
| Util.CollapseSpace | src/util.ts:17 | `replace(/\s+/g, ' ')` leaves no whitespace but single spaces, and never two in a row. |
| Util.CollapseKeepsOthers | src/util.ts:17 | Collapsing whitespace keeps exactly the non-space characters present. |
| Util.DropSpacePrefix | src/util.ts:17 | Everything dropped is whitespace. |
| Util.Split | src/util.ts:17-21 | split gives at least one part, and no part contains the separator. |
| Util.SplitJoinRoundTrip | src/util.ts:17-21 | Splitting on a separator and joining with it gives the string back. |
| Util.SplitWithoutSeparator | src/util.ts:17-21 | A string without the separator splits into itself. |
| Util.TrimEnd | src/util.ts:22 | trimEnd keeps a prefix not ending in whitespace. |
| Util.Trim | src/util.ts:22 | trim leaves no whitespace at either end. |
| Util.RuleName | src/util.ts:21-22 | The camel-cased text before a rule's first `:`; used by FoldRulesLastWins and CssToInlineLastWins. |
| Util.RuleValue | src/util.ts:21-22 | The trimmed text between a rule's first and second `:`, '' without a `:`; Trim states its ends. |
| Util.FoldRules | src/util.ts:20-23 | The reduce over the rules; its contract is FoldRulesLastWins and FoldRulesKeys. |
| Util.FoldRulesLastWins | src/util.ts:18-23 | A rule not followed by another of the same camel-cased name sets that property. |
| Util.FoldRulesKeys | src/util.ts:18-23 | Every property comes from some rule. |
| Util.TerminatedRules | src/util.ts:17-18 | The rules read are the `;`-separated pieces of the whitespace-collapsed text, without the piece after the last `;`; none contains a `;`. |
| Util.CssToInline | src/util.ts:15-24 | A value that is not a string gives no properties. |
| Util.CssToInlineLastWins | src/util.ts:15-24 | For a string, the last terminated rule of a name sets that property to its trimmed value. |
| Util.CssToInlineKeys | src/util.ts:15-24 | For a string, every property set is named by one of its terminated rules. |
| Util.UnterminatedRuleDropped | src/util.ts:17-23 | Text without a `;` gives no properties: the last, unterminated piece is dropped. |
| Util.Round | src/util.ts:26-28 | round gives the multiple of 0.1 nearest the value, ties rounding up. |
| Util.RoundIdempotent | src/util.ts:26-28 | Rounding twice is rounding once. |
| Util.GetScalar | src/util.ts:30-34 | true scales by 1, false by 0, and a number by its `Round`, which lies within 0.05 of it. |
| Util.MergeClasses | src/util.ts:57-66 | Merged props, inline entries and styles: B's entries win over A's, A's are kept otherwise, and the styles are joined. |
| Util.MergeAssociative | src/util.ts:57-66 | Merging classes is associative. |
| Component.ChainLengthMoreFuel | src/index.tsx:67-72 | An extends chain that resolves keeps its length with more steps allowed. |
| Component.GroundingFuel | src/index.tsx:67-72 | A grounded prop has a number of steps within which its chain resolves. |
| Component.ChainLengthUnique | src/index.tsx:67-72 | A chain that resolves has one length. |
| Component.ParentShallower | src/index.tsx:67-72 | An extended prop is declared, and is strictly shallower than its extender, so `getValue` terminates. |
| Component.ShallowIsResolvable | src/index.tsx:62-88 | Props that extend only non-extending props are resolvable. |
| Component.CycleNeverGrounded | src/index.tsx:67-72 | Props extending one another in a ring never resolve, whatever the number of steps. |
| Component.RingStep | src/index.tsx:67-72 | One step around a ring does not resolve. |
| Component.DefaultFromConfig | src/index.tsx:65-73 | Without extends the declared default; the extends case is stated by ExtendsResolvedFirst. |
| Component.ThemeValue | src/index.tsx:74-76 | An inheriting prop takes a truthy theme entry and otherwise the default; a non-inheriting one always the default. |
| Component.CompValue | src/index.tsx:77 | The override is the instance's or the class-level one, and a truthy instance override is chosen. |
| Component.Mapped | src/index.tsx:85 | Without `map` the value is unchanged. |
| Component.GetValue | src/index.tsx:62-88 | A literal override wins when there is no `map`; the full precedence is OverridePrecedence and ExtendsResolvedFirst, and FalsyStylesIgnored and ThemeUnusedWithoutInherit state what it ignores. |
| Component.ExtendsResolvedFirst | src/index.tsx:65-73 | Without extends the default is the declared one; with extends, the extended prop is resolved first and a function default is applied to it, while a literal default is replaced by it. |
| Component.OverridePrecedence | src/index.tsx:74-87 | Case by case on `styles[name] \|\| themeProps[name]`: undefined gives the theme value; 'inherit' gives theme \|\| default; a function gets the theme value and the attrs; a literal wins; `map` is applied last. |
| Component.InstanceStylesFirst | src/index.tsx:77 | A truthy instance override beats the class one; a falsy one falls through to it. |
| Component.InheritOnlyFromTheme | src/index.tsx:74-76 | Without overrides, an inheriting prop takes a truthy theme value, and anything else takes the default. |
| Component.ExtendedWithoutOverride | src/index.tsx:67-77 | Without overrides, an extending prop is its default applied to the extended prop's value. |
| Component.InheritedWithoutOverride | src/index.tsx:74-77 | Without overrides, an inheriting prop is theme \|\| default. |
| Component.FixedWithoutOverride | src/index.tsx:64-77 | Without overrides, a plain prop is its default. |
| Component.TruthyOnly | src/index.tsx:77 | Keeps exactly the truthy instance overrides. |
| Component.FalsyStylesIgnored | src/index.tsx:77 | Falsy instance overrides never change a resolved value. |
| Component.ThemeUnusedWithoutInherit | src/index.tsx:74-84 | When no prop inherits and no override says 'inherit', the theme never affects a value. |
| Component.ComputedProps | src/index.tsx:91-93 | Every declared prop is resolved with getValue, and nothing else. |
| Component.ChildTheme | src/index.tsx:94-97 | The children's theme is the parent theme overridden by the resolved props. |
| Component.Evaluate | src/index.tsx:108-117 | Each producer is applied to the computed props and the attrs; literals are kept. |
| Component.EvalTemplate | src/index.tsx:108-117 | The template with each interpolation evaluated (Evaluate); EvalJoin states that it commutes with joining. |
| Component.EvalJoin | src/index.tsx:108-117 | Evaluating commutes with joining. |
| Component.SheetText | src/index.tsx:108-117 | The sheet text of the joined class and extension templates; SheetTextSplits states its split. |
| Component.SheetTextSplits | src/index.tsx:108-117 | The sheet is the class's sheet text followed by the extension's. |
| Component.ClassInline | src/index.tsx:121-124 | The class's inline entries are exactly the keys of its inline table. |
| Component.ExtendedInline | src/index.tsx:125-130 | Extended inline CSS only yields string entries. |
| Component.Merged | src/index.tsx:132-136 | The instance style beats the extended inline CSS, which beats the class entries. |
| Component.InlineStyle | src/index.tsx:137-139 | An entry is dropped exactly when it is inherited and equals the parent's; kept entries are unchanged. |
| Component.ChildPstyle | src/index.tsx:142-150 | The children see this component's inherited entries, and the parent's otherwise. |
| Component.ChildPstyleTracksInherited | src/index.tsx:137-150 | The children's record of an inherited entry is the value this component resolved, whether emitted or dropped. |
| Component.NestedRepeatOmitted | src/index.tsx:137-150 | A child repeating its parent's inherited value omits it. |
| Component.Construct | src/index.tsx:41-50 | A missing themeProps becomes `{}`, and missing inline and sheet styles become the empty template. |
| Component.AttrProps | src/index.tsx:51-60 | The attribute props are exactly the element props named by defaultAttrs. |
| Component.WithStyles | src/index.tsx:175-183 | `styles` merges the new overrides over the old ones, and nothing else changes. |
| Component.Extend | src/index.tsx:185-193 | `extend` joins the template after the inline CSS, and nothing else changes. |
| Component.ExtendInline | src/index.tsx:195-203 | `extendInline` is `extend`. |
| Component.ExtendSheet | src/index.tsx:205-213 | `extendSheet` joins the template before the sheet CSS, and nothing else changes. |
| Component.WithClass | src/index.tsx:215-223 | `class` merges the new class over the old one, and nothing else changes. |
| Component.WithAttrs | src/index.tsx:225-233 | `attrs` adds the new attribute names and values, and nothing else changes. |
| Component.ExtendTwice | src/index.tsx:185-193 | Two extends equal one extend with the joined template. |
| Component.ExtendSheetTwice | src/index.tsx:205-213 | Two sheet extensions equal one, with the later template first. |
| Component.StylesTwice | src/index.tsx:175-183 | Two `styles` calls equal one with the later overrides winning. |
| Component.ClassTwice | src/index.tsx:215-223 | Two `class` calls equal one with the merged class. |
| Component.ExtendsCommute | src/index.tsx:185-213 | Extending the inline CSS and the sheet commute. |
| Component.Render | src/index.tsx:53-150 | One render: every declared prop is computed; the children's theme gains them; inherited emitted entries reach the children's pstyle. |
| Component.ChildrenSeeResolvedValues | src/index.tsx:90-98 | Every declared prop reaches the children's theme with its resolved value. |
| CoreClass.Inline | src/classes/core.ts:62-98 | core's inline table; its entries' contracts are those of the producers below, and NeverScrollsBothWays and DisabledTogether are stated on it. |
| CoreClass.Props | src/classes/core.ts:141-178 | core's props table; CoreResolvable, ColorInherits, SizeInherits, BgColorFollowsColor and BorderColorFollowsColor are stated on it. |
| CoreClass.Background | src/classes/core.ts:63-68 | Nothing without bg; otherwise solid bgColor.bg, or a linear gradient to bg2 when they differ. |
| CoreClass.SolidBackgroundWithoutGradient | src/classes/core.ts:63-68 | A background colour without gradient contrast is painted solid. |
| CoreClass.TextColor | src/classes/core.ts:69 | color is color.fg. |
| CoreClass.FontSize | src/classes/core.ts:70 | fontSize is the rounded size in px. |
| CoreClass.Padding | src/classes/core.ts:71-72 | padding is half the size times getScalar(padd), rounded; nothing when padd is falsy. |
| CoreClass.FlexDirection | src/classes/core.ts:73-74 | flexDirection starts with column exactly when column is set, else with row, and ends in -reverse exactly when reverse is set. |
| CoreClass.OverflowX | src/classes/core.ts:79 | Scrolls horizontally exactly for a scrolling row. |
| CoreClass.OverflowY | src/classes/core.ts:80 | Scrolls vertically exactly for a scrolling column. |
| CoreClass.PointerEvents | src/classes/core.ts:81 | pointerEvents is none exactly when disabled. |
| CoreClass.Opacity | src/classes/core.ts:82 | opacity is 0.7 exactly when disabled. |
| CoreClass.Corners | src/classes/core.ts:83-90 | A corner radius is 0 when either adjacent side is flat, else the radius. |
| CoreClass.BorderRadius | src/classes/core.ts:83-92 | none unless rounded, else the four corner radii. |
| CoreClass.FlatSidesSquareTheirCorners | src/classes/core.ts:83-90 | A flat top squares exactly the two top corners. |
| CoreClass.Extent | src/classes/core.ts:93-96 | A falsy or string width/height is kept; a number is scaled by size, rounded, in px. |
| CoreClass.UserSelect | src/classes/core.ts:97 | userSelect is none exactly when noselect is set. |
| CoreClass.SheetBorder | src/classes/core.ts:106-109 | none without border, else getScalar(border)px solid borderColor.fg. |
| CoreClass.Gutter | src/classes/core.ts:111-128 | No rule without gutter, else the gutter rules. |
| CoreClass.Lined | src/classes/core.ts:129-133 | No rule without lined, else a line before every child but the leading one. |
| CoreClass.EndLine | src/classes/core.ts:135-139 | A closing line after the trailing child only when lined and endLine are both set. |
| CoreClass.Styles | src/classes/core.ts:100-140 | core's sheet is a well-formed template with four producers. |
| CoreClass.BorderDefault | src/classes/core.ts:143-146 | The default border colour is the text colour inverted and nudged by 0.3. |
| CoreClass.CoreResolvable | src/classes/core.ts:141-178 | core's props are resolvable: only borderColor and bgColor extend, and they extend color. |
| CoreClass.ColorInherits | src/classes/core.ts:142 | Without overrides, color is the theme's color \|\| `new Color()`. |
| CoreClass.SizeInherits | src/classes/core.ts:148-151 | Without overrides, size is the theme's size \|\| 14. |
| CoreClass.BgColorFollowsColor | src/classes/core.ts:147 | Without an override, bgColor is the resolved color. |
| CoreClass.BorderColorFollowsColor | src/classes/core.ts:143-146 | Without an override, borderColor is the resolved color inverted and nudged by 0.3. |
| CoreClass.NeverScrollsBothWays | src/classes/core.ts:79-80 | A core element never scrolls both ways. |
| CoreClass.DisabledTogether | src/classes/core.ts:81-82 | Disabled elements both ignore the pointer and are dimmed, and enabled ones set neither. |
| ActiveClass.Inline | src/classes/active.ts:11-15 | active's inline table; CursorFollowsDisabled is stated on it. |
| ActiveClass.Props | src/classes/active.ts:41-44 | active's props table; HoverOnActiveOff is stated on it. |
| ActiveClass.OutlineColor | src/classes/active.ts:12 | outlineColor is color.bg. |
| ActiveClass.Cursor | src/classes/active.ts:13 | The cursor is inherit exactly when disabled, else pointer. |
| ActiveClass.OutlineWidth | src/classes/active.ts:14 | outlineWidth is a fifth of the size, rounded, in px. |
| ActiveClass.BackgroundNudge | src/classes/active.ts:23 | The background nudge is -0.15 for hover true and 0 for hover false. |
| ActiveClass.TextNudge | src/classes/active.ts:33 | The text nudge is -0.2 with a background and 0.8 without, for hover true. |
| ActiveClass.HoverBackground | src/classes/active.ts:21-25 | There is a hover background rule exactly when hover and bg are both set. |
| ActiveClass.ActiveBackground | src/classes/active.ts:27-29 | There is a pressed background rule exactly when active and bg are both set. |
| ActiveClass.HoverText | src/classes/active.ts:31-35 | There is a hover text rule exactly when hover is set. |
| ActiveClass.ActiveText | src/classes/active.ts:37-39 | There is a pressed text rule exactly when active is set. |
| ActiveClass.Styles | src/classes/active.ts:17-40 | active's sheet is a well-formed template with four producers. |
| ActiveClass.HoverOnActiveOff | src/classes/active.ts:41-44 | Without overrides, hover is true and active is false. |
| ActiveClass.PressMatchesHover | src/classes/active.ts:21-39 | The pressed rules show the same nudged shades as the hover rules. |
| ActiveClass.DefaultsProduceHoverOnly | src/classes/active.ts:21-44 | With the defaults only the hover rules appear, the background one only with bg. |
| ActiveClass.CursorFollowsDisabled | src/classes/active.ts:13 | In the inline entries, the cursor is inherit exactly when disabled. |
| InlineClass.Inline | src/classes/inline.ts:8-16 | inline's inline table: only padding, by InlineClass.Padding. |
| InlineClass.Props | src/classes/inline.ts:35-38 | inline's props table; MergedOverCore and MergeKeepsCore are stated on it. |
| InlineClass.Paddings | src/classes/inline.ts:12-13 | The vertical padding is half the horizontal, which is half the size times getScalar(padd), unrounded. |
| InlineClass.Padding | src/classes/inline.ts:9-16 | Nothing when padd is falsy, else the two paddings in px. |
| InlineClass.SheetBorder | src/classes/inline.ts:21-24 | none without border, else 1px solid borderColor.fg, whatever the border scalar. |
| InlineClass.Gutter | src/classes/inline.ts:26-33 | No rule without gutter, else the eighth-of-size gutter rules. |
| InlineClass.GutterAxis | src/classes/inline.ts:28-31 | The gutter margins run top and bottom in a column, and left and right in a row. |
| InlineClass.Styles | src/classes/inline.ts:18-34 | inline's sheet opens with display: inline-flex and has two producers. |
| InlineClass.SheetStartsInlineFlex | src/classes/inline.ts:18-19 | Every inline element's sheet starts with display: inline-flex, whatever its props. |
| InlineClass.MergedOverCore | src/classes/inline.ts:35-38 | Merged over core, bg's default turns from false to true and rounded's from undefined to true. |
| InlineClass.MergeKeepsCore | src/classes/inline.ts:35-38 | Merged over core, every other core prop is kept. |

## Left out

- React plumbing is not part of this model: contexts, the `ThemeProvider`, `memo` and `useMemo`, refs, `passThoughProps`, the `domels` element builders and the elision of a Provider whose theme is unchanged. A render is the function `Component.Render`.
- emotion's `css` class generation and `injectGlobal` are left out. The sheet is modelled as the interpolated text.
- Memoisation is left out: the `_.memoize` wrappers on the colour transforms, the `colorCache` and the `getValue` callbacks. One consequence goes unmodelled: `as` is memoised on its first argument only, so a second call with the same primary and a different secondary returns the first result.
- JavaScript numbers are modelled as reals. NaN, the infinities and floating-point rounding are not modelled. For a scale of one bare colour the source computes position 0/0 = NaN; the model places it at 0, and sampling still gives that colour (`Colors.SingleBareColour`).
- The colour mixer, hex formatting, `camelCase`, `parseFloat` and number-to-string conversion are parameters (`Host`, `Mixer`), not definitions.
- Js.Numeric: coercion of a string or other non-number to a number goes through the host's `parseFloat`. This only approximates JavaScript's `Number()`.
- Reading `.fg`, `.bg`, `.fg2` or `.bg2` on an undefined or null prop throws a TypeError in the source. So does calling `.nudge` or `.invert` on any prop that is not a colour. The model gives undefined in these cases (`Js.Shade`, `Js.NudgeOf`). On a string, number or boolean, `.fg` and `.bg` read as undefined in the source too.
- CoreClass.BorderDefault: gives undefined for a `color` that is not a colour, where `color.invert()` throws in the source (src/classes/core.ts:145).
- Component.GetValue: requires `Resolvable` props. An `extends` naming an undeclared prop throws in the source, and a cycle of `extends` recurses without end. A function default on a prop without `extends` is also excluded, since the model's values hold no functions.
- Colors.NewColor: requires non-empty chosen scales (`Buildable`). An empty scale throws in the source when it is sampled. A zero nudge coefficient is accepted and becomes 1.
- `!==` between inline values is object identity in the source. The model uses structural equality, which agrees on strings and numbers.
- An undefined `inverted` is stored as false.
- The set of inheriting inline properties (`inheritedProps`) is a parameter of `Component.Render`.
- `src/types.ts` declares only types. They are modelled as datatypes in `Types`.
