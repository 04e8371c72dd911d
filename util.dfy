/**
 * src/util.ts: the `css` tag, template splicing and interpolation, the CSS
 * text to inline-style conversion, `round`, `getScalar` and the overlay of
 * two style classes.
 */
module Util {
  import opened Wrappers
  import opened Js
  import opened Types

  // ---------------------------------------------------------------- templates

  /** css`…`: the tag keeps the chunks and the interpolations as they are. */
  function Css(strings: seq<string>, interps: seq<Interp>): (t: Template<Interp>)
    requires |strings| == |interps| + 1
    ensures WellFormed(t)
    ensures t.strings == strings && t.values == interps
  {
    Template(strings, interps)
  }

  /** emptySinterp, the template `[[], []]` a component starts from. */
  function EmptyTemplate<T>(): Template<T> {
    Template([], [])
  }

  /** The last chunk, or '' when there is none. */
  function Last(s: seq<string>): string {
    if |s| == 0 then "" else s[|s| - 1]
  }

  /** The first chunk, or '' when there is none. */
  function First(s: seq<string>): string {
    if |s| == 0 then "" else s[0]
  }

  /** All chunks but the last (slice(0, length - 1)). */
  function Body(s: seq<string>): seq<string> {
    if |s| == 0 then [] else s[..|s| - 1]
  }

  /** All chunks but the first (slice(1)). */
  function Rest(s: seq<string>): seq<string> {
    if |s| == 0 then [] else s[1..]
  }

  /** joinTemplates(A, B): A's last chunk and B's first chunk fuse into one; the values concatenate. */
  function Join<T>(a: Template<T>, b: Template<T>): (r: Template<T>)
    ensures r.values == a.values + b.values
    ensures |r.strings| == |Body(a.strings)| + 1 + |Rest(b.strings)|
    ensures WellFormed(a) && WellFormed(b) ==> WellFormed(r)
  {
    Template(Body(a.strings) + [Last(a.strings) + First(b.strings)] + Rest(b.strings), a.values + b.values)
  }

  /** Chunk by chunk: A's chunks but its last, then the fused chunk, then B's chunks but its first. */
  lemma JoinChunks<T>(a: Template<T>, b: Template<T>)
    requires |a.strings| > 0 && |b.strings| > 0
    ensures var r := Join(a, b).strings;
      && |r| == |a.strings| + |b.strings| - 1
      && (forall i :: 0 <= i < |a.strings| - 1 ==> r[i] == a.strings[i])
      && r[|a.strings| - 1] == a.strings[|a.strings| - 1] + b.strings[0]
      && (forall j :: 1 <= j < |b.strings| ==> r[|a.strings| - 1 + j] == b.strings[j])
  {
  }

  /** The empty template is a left and a right identity for every template with at least one chunk. */
  lemma JoinIdentity<T>(t: Template<T>)
    requires |t.strings| > 0
    ensures Join(EmptyTemplate(), t) == t
    ensures Join(t, EmptyTemplate()) == t
  {
    assert "" + t.strings[0] == t.strings[0];
    assert [t.strings[0]] + t.strings[1..] == t.strings;
    assert t.strings[|t.strings| - 1] + "" == t.strings[|t.strings| - 1];
    assert t.strings[..|t.strings| - 1] + [t.strings[|t.strings| - 1]] == t.strings;
  }

  /** Joining the empty template with itself gives one empty chunk, not the empty template. */
  lemma JoinEmptyWithItself<T>()
    ensures Join<T>(EmptyTemplate(), EmptyTemplate()) == Template([""], [])
  {
  }

  /** joinTemplates is associative, missing ends counting as ''. */
  lemma {:induction false} JoinAssociative<T>(a: Template<T>, b: Template<T>, c: Template<T>)
    ensures Join(Join(a, b), c) == Join(a, Join(b, c))
  {
    var ab := Join(a, b).strings;
    var bc := Join(b, c).strings;
    assert (a.values + b.values) + c.values == a.values + (b.values + c.values);
    assert |ab| > 0 && |bc| > 0;
    if |b.strings| == 0 {
      assert "" + First(c.strings) == First(c.strings);
      assert bc == [First(c.strings)] + Rest(c.strings);
      assert Body(ab) == Body(a.strings) && Last(ab) == Last(a.strings);
      assert First(bc) == First(c.strings) && Rest(bc) == Rest(c.strings);
    } else if |b.strings| == 1 {
      assert Body(ab) == Body(a.strings);
      assert Last(ab) == Last(a.strings) + b.strings[0];
      assert First(bc) == b.strings[0] + First(c.strings);
      assert Rest(bc) == Rest(c.strings);
      assert (Last(a.strings) + b.strings[0]) + First(c.strings) == Last(a.strings) + (b.strings[0] + First(c.strings));
    } else {
      assert Body(ab) == Body(a.strings) + [Last(a.strings) + First(b.strings)] + b.strings[1..|b.strings| - 1];
      assert Last(ab) == b.strings[|b.strings| - 1];
      assert First(bc) == Last(a.strings) + First(b.strings) || First(bc) == b.strings[0];
      assert First(bc) == b.strings[0];
      assert Rest(bc) == b.strings[1..|b.strings| - 1] + [b.strings[|b.strings| - 1] + First(c.strings)] + Rest(c.strings);
    }
  }

  /** The piece interpolateTemplate emits for chunk i: the value before it (when truthy, as a string), then the chunk. */
  function Piece(host: Host, values: seq<Value>, i: nat, chunk: string): (r: string)
    ensures !(1 <= i <= |values| && Truthy(values[i - 1])) ==> r == chunk
  {
    if 1 <= i <= |values| && Truthy(values[i - 1]) then Text(host, values[i - 1]) + chunk else chunk
  }

  /** interpolateTemplate: every chunk, each preceded by the value before it when that value is truthy. */
  function Interpolate(host: Host, t: Template<Value>): string
    decreases |t.strings|
  {
    if |t.strings| == 0 then ""
    else
      Interpolate(host, Template(t.strings[..|t.strings| - 1], t.values))
      + Piece(host, t.values, |t.strings| - 1, t.strings[|t.strings| - 1])
  }

  /** The interpolated text starts with the first chunk. */
  lemma {:induction false} InterpolateStartsWithFirstChunk(host: Host, t: Template<Value>)
    requires |t.strings| > 0
    ensures |t.strings[0]| <= |Interpolate(host, t)|
    ensures Interpolate(host, t)[..|t.strings[0]|] == t.strings[0]
    decreases |t.strings|
  {
    if |t.strings| > 1 {
      var front := Template(t.strings[..|t.strings| - 1], t.values);
      InterpolateStartsWithFirstChunk(host, front);
      assert front.strings[0] == t.strings[0];
      var last := Piece(host, t.values, |t.strings| - 1, t.strings[|t.strings| - 1]);
      assert Interpolate(host, t) == Interpolate(host, front) + last;
      assert (Interpolate(host, front) + last)[..|t.strings[0]|] == Interpolate(host, front)[..|t.strings[0]|];
    } else {
      assert Interpolate(host, t) == Interpolate(host, Template([], t.values)) + t.strings[0];
      assert Interpolate(host, Template([], t.values)) == "";
    }
  }

  /** Plain concatenation of chunks. */
  function Concat(s: seq<string>): string {
    if |s| == 0 then "" else Concat(s[..|s| - 1]) + s[|s| - 1]
  }

  /** Falsy values (undefined, null, false, 0, '') contribute nothing: with no truthy value the result is the chunks' concatenation. */
  lemma {:induction false} InterpolateWithoutTruthyValues(host: Host, t: Template<Value>)
    requires forall k :: 0 <= k < |t.values| ==> !Truthy(t.values[k])
    ensures Interpolate(host, t) == Concat(t.strings)
    decreases |t.strings|
  {
    if |t.strings| > 0 {
      InterpolateWithoutTruthyValues(host, Template(t.strings[..|t.strings| - 1], t.values));
    }
  }

  /** A value takes part only through the chunk after it: values past the last chunk are never read. */
  lemma {:induction false} InterpolateIgnoresLaterValues(host: Host, s: seq<string>, v: seq<Value>, extra: seq<Value>)
    requires |s| <= |v| + 1
    ensures Interpolate(host, Template(s, v + extra)) == Interpolate(host, Template(s, v))
    decreases |s|
  {
    if |s| > 0 {
      InterpolateIgnoresLaterValues(host, s[..|s| - 1], v, extra);
      var i := |s| - 1;
      if 1 <= i {
        assert (v + extra)[i - 1] == v[i - 1];
      }
    }
  }

  /** Templates whose values line up with their chunks when another template is joined after them. */
  predicate Composable<T>(t: Template<T>) {
    WellFormed(t) || (t.strings == [] && t.values == [])
  }

  /** Interpolating a join is interpolating each side and concatenating. */
  lemma {:induction false} InterpolateJoin(host: Host, a: Template<Value>, b: Template<Value>)
    requires Composable(a)
    ensures Interpolate(host, Join(a, b)) == Interpolate(host, a) + Interpolate(host, b)
    decreases |b.strings|
  {
    var n := |b.strings|;
    if n <= 1 {
      JoinSingleChunk(host, a, b);
    } else {
      var b' := Template(b.strings[..n - 1], b.values);
      InterpolateJoin(host, a, b');
      JoinStep(host, a, b);
    }
  }

  /** The inductive step of InterpolateJoin: from B without its last chunk to B. */
  lemma JoinStep(host: Host, a: Template<Value>, b: Template<Value>)
    requires Composable(a) && |b.strings| > 1
    requires var b' := Template(b.strings[..|b.strings| - 1], b.values);
      Interpolate(host, Join(a, b')) == Interpolate(host, a) + Interpolate(host, b')
    ensures Interpolate(host, Join(a, b)) == Interpolate(host, a) + Interpolate(host, b)
  {
    var b' := Template(b.strings[..|b.strings| - 1], b.values);
    var p := Piece(host, b.values, |b.strings| - 1, b.strings[|b.strings| - 1]);
    JoinLastChunk(host, a, b);
    Regroup(Interpolate(host, Join(a, b)), Interpolate(host, Join(a, b')), Interpolate(host, a),
            Interpolate(host, b'), Interpolate(host, b), p);
  }

  /** Appending the same piece to both sides of a split text. */
  lemma Regroup(whole: string, front: string, x: string, y: string, yp: string, p: string)
    requires whole == front + p && front == x + y && yp == y + p
    ensures whole == x + yp
  {
    assert (x + y) + p == x + (y + p);
  }

  /** The last chunk of B stays the last chunk of the join, and its piece is the one B emits for it. */
  lemma JoinLastChunk(host: Host, a: Template<Value>, b: Template<Value>)
    requires Composable(a) && |b.strings| > 1
    ensures var b' := Template(b.strings[..|b.strings| - 1], b.values);
      && Interpolate(host, Join(a, b)) == Interpolate(host, Join(a, b')) + Piece(host, b.values, |b.strings| - 1, b.strings[|b.strings| - 1])
      && Interpolate(host, b) == Interpolate(host, b') + Piece(host, b.values, |b.strings| - 1, b.strings[|b.strings| - 1])
  {
    var n := |b.strings|;
    var b' := Template(b.strings[..n - 1], b.values);
    var r := Join(a, b);
    var r' := Join(a, b');
    assert Rest(b.strings) == Rest(b'.strings) + [b.strings[n - 1]];
    assert r.strings == r'.strings + [b.strings[n - 1]];
    assert r.strings[..|r.strings| - 1] == r'.strings;
    assert |r.strings| - 1 == |a.values| + n - 1;
    PieceShift(host, a.values, b.values, n - 1, b.strings[n - 1]);
  }

  /** Index i of B's values sits at index |A.values| + i after the concatenation. */
  lemma PieceShift(host: Host, av: seq<Value>, bv: seq<Value>, j: nat, chunk: string)
    requires j >= 1
    ensures Piece(host, av + bv, |av| + j, chunk) == Piece(host, bv, j, chunk)
  {
    if j <= |bv| {
      assert (av + bv)[|av| + j - 1] == bv[j - 1];
    }
  }

  /** Appending to a chunk appends to its piece. */
  lemma PieceAppend(host: Host, v: seq<Value>, i: nat, x: string, y: string)
    ensures Piece(host, v, i, x + y) == Piece(host, v, i, x) + y
  {
    if 1 <= i <= |v| && Truthy(v[i - 1]) {
      assert Text(host, v[i - 1]) + (x + y) == (Text(host, v[i - 1]) + x) + y;
    }
  }

  /** Values appended after index i do not change chunk i's piece. */
  lemma PieceIgnoresLaterValues(host: Host, v: seq<Value>, extra: seq<Value>, i: nat, chunk: string)
    requires i <= |v|
    ensures Piece(host, v + extra, i, chunk) == Piece(host, v, i, chunk)
  {
    if 1 <= i {
      assert (v + extra)[i - 1] == v[i - 1];
    }
  }

  /** A template of at most one chunk interpolates to that chunk ('' when there is none). */
  lemma InterpolateOneChunk(host: Host, t: Template<Value>)
    requires |t.strings| <= 1
    ensures Interpolate(host, t) == First(t.strings)
  {
    if |t.strings| == 1 {
      assert t.strings[..0] == [];
      assert Interpolate(host, Template([], t.values)) == "";
    }
  }

  /** InterpolateJoin when B has at most one chunk. */
  lemma JoinSingleChunk(host: Host, a: Template<Value>, b: Template<Value>)
    requires Composable(a) && |b.strings| <= 1
    ensures Interpolate(host, Join(a, b)) == Interpolate(host, a) + Interpolate(host, b)
  {
    InterpolateOneChunk(host, b);
    if |a.strings| == 0 {
      EmptyThenOneChunk(host, a, b);
    } else {
      WellFormedThenOneChunk(host, a, b);
    }
  }

  lemma EmptyThenOneChunk(host: Host, a: Template<Value>, b: Template<Value>)
    requires a.strings == [] && a.values == [] && |b.strings| <= 1
    ensures Interpolate(host, Join(a, b)) == First(b.strings)
  {
    var r := Join(a, b);
    assert Rest(b.strings) == [];
    assert "" + First(b.strings) == First(b.strings);
    assert r.strings == [First(b.strings)];
    InterpolateOneChunk(host, r);
  }

  lemma WellFormedThenOneChunk(host: Host, a: Template<Value>, b: Template<Value>)
    requires WellFormed(a) && |b.strings| <= 1
    ensures Interpolate(host, Join(a, b)) == Interpolate(host, a) + First(b.strings)
  {
    var r := Join(a, b);
    var k := |a.strings| - 1;
    var front := a.strings[..k];
    assert Rest(b.strings) == [];
    assert r.strings == front + [a.strings[k] + First(b.strings)];
    assert r.strings[..|r.strings| - 1] == front;
    InterpolateIgnoresLaterValues(host, front, a.values, b.values);
    PieceIgnoresLaterValues(host, a.values, b.values, k, a.strings[k] + First(b.strings));
    PieceAppend(host, a.values, k, a.strings[k], First(b.strings));
    var i := Interpolate(host, Template(front, a.values));
    assert Interpolate(host, r) == i + Piece(host, a.values, k, a.strings[k] + First(b.strings));
    assert Interpolate(host, a) == i + Piece(host, a.values, k, a.strings[k]);
    assert i + (Piece(host, a.values, k, a.strings[k]) + First(b.strings))
        == (i + Piece(host, a.values, k, a.strings[k])) + First(b.strings);
  }

  // ---------------------------------------------------------------- cssToInline

  /** The characters JavaScript's \s and String#trim treat as white space. */
  predicate IsJsSpace(c: char) {
    || c == ' ' || c == '\t' || c == '\n' || c == '\U{000B}' || c == '\U{000C}' || c == '\r'
    || c == '\U{00A0}' || c == '\U{1680}' || ('\U{2000}' <= c <= '\U{200A}')
    || c == '\U{2028}' || c == '\U{2029}' || c == '\U{202F}' || c == '\U{205F}'
    || c == '\U{3000}' || c == '\U{FEFF}'
  }

  /** The text after the leading run of white space. */
  function DropSpace(s: string): (r: string)
    ensures |r| <= |s|
    ensures |r| > 0 ==> !IsJsSpace(r[0])
    ensures r == s[|s| - |r|..]
  {
    if |s| > 0 && IsJsSpace(s[0]) then DropSpace(s[1..]) else s
  }

  /** css.replace(/\s+/g, ' '): every run of white space becomes one ' '. */
  function CollapseSpace(s: string): (r: string)
    ensures forall k :: 0 <= k < |r| && IsJsSpace(r[k]) ==> r[k] == ' '
    ensures forall k :: 0 <= k < |r| - 1 ==> !(r[k] == ' ' && r[k + 1] == ' ')
    ensures |s| == 0 ==> r == ""
    ensures |s| > 0 ==> |r| > 0 && (r[0] == ' ' <==> IsJsSpace(s[0]))
    decreases |s|
  {
    if |s| == 0 then ""
    else if IsJsSpace(s[0]) then " " + CollapseSpace(DropSpace(s))
    else [s[0]] + CollapseSpace(s[1..])
  }

  /** Collapsing keeps every character that is not white space, and so never adds or removes a ';' or ':'. */
  lemma {:induction false} CollapseKeepsOthers(s: string, c: char)
    requires !IsJsSpace(c)
    ensures (c in CollapseSpace(s)) <==> (c in s)
    decreases |s|
  {
    if |s| > 0 {
      if IsJsSpace(s[0]) {
        var d := DropSpace(s);
        CollapseKeepsOthers(d, c);
        assert (c in s) <==> (c in d) by {
          assert s == s[..|s| - |d|] + d;
          assert forall k :: 0 <= k < |s| - |d| ==> IsJsSpace(s[k]) by {
            DropSpacePrefix(s);
          }
        }
      } else {
        CollapseKeepsOthers(s[1..], c);
        assert s == [s[0]] + s[1..];
      }
    }
  }

  /** What DropSpace removes is all white space. */
  lemma {:induction false} DropSpacePrefix(s: string)
    ensures forall k :: 0 <= k < |s| - |DropSpace(s)| ==> IsJsSpace(s[k])
    decreases |s|
  {
    if |s| > 0 && IsJsSpace(s[0]) {
      DropSpacePrefix(s[1..]);
    }
  }

  /** String#split with a one-character separator: always at least one piece. */
  function Split(s: string, sep: char): (parts: seq<string>)
    ensures |parts| >= 1
    ensures forall k :: 0 <= k < |parts| ==> sep !in parts[k]
    decreases |s|
  {
    if |s| == 0 then [""]
    else if s[0] == sep then [""] + Split(s[1..], sep)
    else
      var r := Split(s[1..], sep);
      [[s[0]] + r[0]] + r[1..]
  }

  /** The pieces joined back with the separator. */
  function JoinWith(parts: seq<string>, sep: char): string
    requires |parts| >= 1
  {
    if |parts| == 1 then parts[0] else parts[0] + [sep] + JoinWith(parts[1..], sep)
  }

  /** Splitting loses nothing: the pieces joined with the separator give back the text. */
  lemma {:induction false} SplitJoinRoundTrip(s: string, sep: char)
    ensures JoinWith(Split(s, sep), sep) == s
    decreases |s|
  {
    if |s| > 0 {
      SplitJoinRoundTrip(s[1..], sep);
      var r := Split(s[1..], sep);
      if s[0] != sep {
        if |r| > 1 {
          assert ([[s[0]] + r[0]] + r[1..])[1..] == r[1..];
        }
        assert s == [s[0]] + s[1..];
      } else {
        assert ([""] + r)[1..] == r;
        assert s == [sep] + s[1..];
      }
    }
  }

  /** A text without the separator is one piece. */
  lemma {:induction false} SplitWithoutSeparator(s: string, sep: char)
    requires sep !in s
    ensures Split(s, sep) == [s]
    decreases |s|
  {
    if |s| > 0 {
      SplitWithoutSeparator(s[1..], sep);
      assert [s[0]] + s[1..] == s;
    }
  }

  /** The text without leading white space. */
  function TrimStart(s: string): string {
    DropSpace(s)
  }

  /** The text without trailing white space. */
  function TrimEnd(s: string): (r: string)
    ensures |r| <= |s| && r == s[..|r|]
    ensures |r| > 0 ==> !IsJsSpace(r[|r| - 1])
  {
    if |s| > 0 && IsJsSpace(s[|s| - 1]) then TrimEnd(s[..|s| - 1]) else s
  }

  /** String#trim. */
  function Trim(s: string): (r: string)
    ensures |r| > 0 ==> !IsJsSpace(r[0]) && !IsJsSpace(r[|r| - 1])
  {
    TrimEnd(TrimStart(s))
  }

  /** The name of a rule `name: value`: the text before its first ':', camel-cased. */
  function RuleName(host: Host, rule: string): string {
    host.camelCase(Split(rule, ':')[0])
  }

  /** The value of a rule: the trimmed text between its first and second ':', '' when there is no ':'. */
  function RuleValue(rule: string): string {
    var parts := Split(rule, ':');
    if |parts| >= 2 then Trim(parts[1]) else ""
  }

  /** The reduce over the rules: each rule sets its name to its value, on top of the earlier ones. */
  function FoldRules(host: Host, rules: seq<string>): map<string, string>
    decreases |rules|
  {
    if |rules| == 0 then map[]
    else FoldRules(host, rules[..|rules| - 1])[RuleName(host, rules[|rules| - 1]) := RuleValue(rules[|rules| - 1])]
  }

  /** The names set are exactly the rules' names, and each holds the value of the last rule with that name. */
  lemma {:induction false} FoldRulesLastWins(host: Host, rules: seq<string>, i: nat)
    requires i < |rules|
    requires forall j :: i < j < |rules| ==> RuleName(host, rules[j]) != RuleName(host, rules[i])
    ensures RuleName(host, rules[i]) in FoldRules(host, rules)
    ensures FoldRules(host, rules)[RuleName(host, rules[i])] == RuleValue(rules[i])
    decreases |rules|
  {
    if i < |rules| - 1 {
      var front := rules[..|rules| - 1];
      assert front[i] == rules[i];
      forall j | i < j < |front| ensures RuleName(host, front[j]) != RuleName(host, front[i]) {
        assert front[j] == rules[j];
      }
      FoldRulesLastWins(host, front, i);
    }
  }

  /** Every name in the result comes from some rule. */
  lemma {:induction false} FoldRulesKeys(host: Host, rules: seq<string>, name: string)
    requires name in FoldRules(host, rules)
    ensures exists i :: 0 <= i < |rules| && RuleName(host, rules[i]) == name
    decreases |rules|
  {
    var n := |rules| - 1;
    if RuleName(host, rules[n]) != name {
      FoldRulesKeys(host, rules[..n], name);
      var i :| 0 <= i < n && RuleName(host, rules[..n][i]) == name;
      assert rules[..n][i] == rules[i];
    }
  }

  /** The `;`-terminated pieces of a text with its whitespace collapsed; the piece after the last `;` is popped. */
  function TerminatedRules(s: string): (rules: seq<string>)
    ensures forall k :: 0 <= k < |rules| ==> ';' !in rules[k]
  {
    var pieces := Split(CollapseSpace(s), ';');
    pieces[..|pieces| - 1]
  }

  /** cssToInline: {} for a non-string; otherwise the `;`-terminated rules, collapsed, read name by name. */
  function CssToInline(host: Host, css: Value): (r: map<string, string>)
    ensures !css.Str? ==> r == map[]
  {
    if !css.Str? then map[]
    else FoldRules(host, TerminatedRules(css.s))
  }

  /** In cssToInline's result, the last rule of a given name sets that property. */
  lemma CssToInlineLastWins(host: Host, s: string, i: nat)
    requires i < |TerminatedRules(s)|
    requires forall j :: i < j < |TerminatedRules(s)| ==>
      RuleName(host, TerminatedRules(s)[j]) != RuleName(host, TerminatedRules(s)[i])
    ensures var r := CssToInline(host, Str(s));
      RuleName(host, TerminatedRules(s)[i]) in r && r[RuleName(host, TerminatedRules(s)[i])] == RuleValue(TerminatedRules(s)[i])
  {
    FoldRulesLastWins(host, TerminatedRules(s), i);
  }

  /** Every property cssToInline sets is named by one of the text's `;`-terminated rules. */
  lemma CssToInlineKeys(host: Host, s: string, name: string)
    requires name in CssToInline(host, Str(s))
    ensures exists i :: 0 <= i < |TerminatedRules(s)| && RuleName(host, TerminatedRules(s)[i]) == name
  {
    FoldRulesKeys(host, TerminatedRules(s), name);
  }

  /** The text after the last ';' is not a rule: a text with no ';' at all gives no entries. */
  lemma UnterminatedRuleDropped(host: Host, s: string)
    requires ';' !in s
    ensures CssToInline(host, Str(s)) == map[]
  {
    CollapseKeepsOthers(s, ';');
    SplitWithoutSeparator(CollapseSpace(s), ';');
  }

  // ---------------------------------------------------------------- numbers

  /** round: Math.round(value * 10) / 10, Math.round rounding halves up. */
  function Round(x: real): (r: real)
    ensures r - 0.05 <= x < r + 0.05
    ensures (r * 10.0).Floor as real == r * 10.0
  {
    (x * 10.0 + 0.5).Floor as real / 10.0
  }

  /** Rounding a rounded value changes nothing. */
  lemma RoundIdempotent(x: real)
    ensures Round(Round(x)) == Round(x)
  {
    var k := (x * 10.0 + 0.5).Floor;
    assert Round(x) * 10.0 == k as real;
    assert (k as real + 0.5).Floor == k;
  }

  /** getScalar: true is 1, false is 0, anything else is parsed as a number and rounded. */
  function GetScalar(host: Host, v: Value): (r: real)
    ensures v == Bool(true) ==> r == 1.0
    ensures v == Bool(false) ==> r == 0.0
    ensures v.Num? ==> r == Round(v.n) && r - 0.05 <= v.n < r + 0.05
  {
    match v
    case Bool(b) => if b then 1.0 else 0.0
    case Num(n) => Round(n)
    case _ => Round(host.parseFloat(Text(host, v)))
  }

  // ---------------------------------------------------------------- classes

  /** mergeClasses(A, B): the sheets join A then B; props and inline entries overlay, B's winning. */
  function MergeClasses(a: StyleClass, b: StyleClass): (r: StyleClass)
    ensures r.styles == Join(a.styles, b.styles)
    ensures r.props.Keys == a.props.Keys + b.props.Keys
    ensures forall k :: k in b.props ==> r.props[k] == b.props[k]
    ensures forall k :: k in a.props && k !in b.props ==> r.props[k] == a.props[k]
    ensures r.inline.Some?
    ensures r.inline.value.Keys == a.inline.GetOr(map[]).Keys + b.inline.GetOr(map[]).Keys
    ensures forall k :: k in b.inline.GetOr(map[]) ==> r.inline.value[k] == b.inline.GetOr(map[])[k]
    ensures forall k :: k in a.inline.GetOr(map[]) && k !in b.inline.GetOr(map[]) ==>
              r.inline.value[k] == a.inline.GetOr(map[])[k]
  {
    StyleClass(Some(a.inline.GetOr(map[]) + b.inline.GetOr(map[])),
               Join(a.styles, b.styles),
               a.props + b.props)
  }

  /** Merging is associative, so a chain of `.class(…)` calls can be grouped either way. */
  lemma MergeAssociative(a: StyleClass, b: StyleClass, c: StyleClass)
    ensures MergeClasses(MergeClasses(a, b), c) == MergeClasses(a, MergeClasses(b, c))
  {
    JoinAssociative(a.styles, b.styles, c.styles);
    var ai, bi, ci := a.inline.GetOr(map[]), b.inline.GetOr(map[]), c.inline.GetOr(map[]);
    assert (ai + bi) + ci == ai + (bi + ci);
    assert (a.props + b.props) + c.props == a.props + (b.props + c.props);
  }
}
