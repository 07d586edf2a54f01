/** The selection nodes: Select compiles an expression such as
    `/root/Cube[@type==MESH and name('Cube')]` into a query record, and Union,
    Intersection and Difference Selection wrap two queries into one. The
    regular expressions of `parse_expression` are written out as scans over
    the string; `\w` and `\s` are taken over ASCII. */
module SelectionNodes {
  import opened Base
  import opened Strings
  import opened Globs
  import opened ProxyArena
  import opened EngineUtils

  // ---------------------------------------------------------------------
  // Character classes and runs

  predicate IsWord(c: char) {
    ('a' <= c <= 'z') || ('A' <= c <= 'Z') || ('0' <= c <= '9') || c == '_'
  }

  predicate IsKeyChar(c: char) {
    IsWord(c) || c == '.'
  }

  predicate IsOpChar(c: char) {
    c == '=' || c == '<' || c == '>' || c == '!'
  }

  predicate IsQuote(c: char) {
    c == '\'' || c == '"'
  }

  /** The end of the longest run of characters satisfying `p` from `i`:
      what a greedy `p*` consumes. */
  function Run(s: string, i: nat, p: char -> bool): (j: nat)
    requires i <= |s|
    ensures i <= j <= |s|
    ensures forall k :: i <= k < j ==> p(s[k])
    ensures j == |s| || !p(s[j])
    decreases |s| - i
  {
    if i < |s| && p(s[i]) then Run(s, i + 1, p) else i
  }

  /** A run is determined by where it starts and what stops it. */
  lemma {:induction false} RunStops(s: string, i: nat, j: nat, p: char -> bool)
    requires i <= j <= |s|
    requires forall k :: i <= k < j ==> p(s[k])
    requires j == |s| || !p(s[j])
    ensures Run(s, i, p) == j
    decreases j - i
  {
    if i < j {
      RunStops(s, i + 1, j, p);
    }
  }

  // ---------------------------------------------------------------------
  // The path part and the filter part

  /** Where the first `'['` sits, or the length when there is none. */
  function Bracket(e: string): (i: nat)
    ensures i <= |e| && '[' !in e[..i]
    ensures i < |e| ==> e[i] == '['
  {
    Run(e, 0, c => c != '[')
  }

  /** The glob used when the expression has no path part: every prim below
      the root, at any depth. */
  const DefaultGlob := "//**/*"

  /** `path_glob`: the text before the first `'['`, stripped, or
      `DefaultGlob` when that text is blank. */
  function PathGlob(e: string): (r: string)
    ensures r != "" && '[' !in r
  {
    var pre := e[..Bracket(e)];
    if LStrip(pre) == "" then DefaultGlob
    else
      LStripShrinks(pre);
      RStripKeepsFirst(LStrip(pre));
      StripInside(pre, '[');
      Strip(pre)
  }

  /** Right-stripping keeps a string that starts with a non-blank. */
  lemma {:induction false} RStripKeepsFirst(t: string)
    requires t != [] && !IsSpace(t[0])
    ensures RStrip(t) != []
    decreases |t|
  {
    if |t| > 1 && IsSpace(t[|t| - 1]) {
      RStripKeepsFirst(t[..|t| - 1]);
    }
  }

  /** The `[...]` group: the text between the first `'['` and the first
      `']'` after it, when there is such a `']'` and the text is not empty. */
  function FilterPart(e: string): (r: Option<string>)
    ensures r.Some? ==> r.value != "" && forall k :: 0 <= k < |r.value| ==> r.value[k] != ']'
  {
    var i := Bracket(e);
    if i == |e| then None
    else
      var j := Run(e, i + 1, c => c != ']');
      if j == |e| || j == i + 1 then None
      else
        Some(e[i + 1..j])
  }

  // ---------------------------------------------------------------------
  // One filter

  /** `(\w+)\s*\(\s*['"](\w+)['"]\s*\)` at the start of the string: the
      function name and its argument. */
  function FuncParse(f: string): (r: Option<(string, string)>)
    ensures r.Some? ==> r.value.0 != "" && r.value.1 != ""
  {
    var j1 := Run(f, 0, IsWord);
    var j2 := Run(f, j1, IsSpace);
    if j1 == 0 || j2 == |f| || f[j2] != '(' then None
    else
      var j3 := Run(f, j2 + 1, IsSpace);
      if j3 == |f| || !IsQuote(f[j3]) then None
      else
        var j4 := Run(f, j3 + 1, IsWord);
        if j4 == j3 + 1 || j4 == |f| || !IsQuote(f[j4]) then None
        else
          var j5 := Run(f, j4 + 1, IsSpace);
          if j5 == |f| || f[j5] != ')' then None
          else Some((f[..j1], f[j3 + 1..j4]))
  }

  /** `@([\w\.]+)\s*([=<>!]+)\s*(.+)` at the start of the string: key,
      operator and the value, stripped. */
  function PropParse(f: string): (r: Option<(string, string, string)>)
    ensures r.Some? ==> r.value.0 != "" && r.value.1 != ""
  {
    if f == [] || f[0] != '@' then None
    else
      var k := Run(f, 1, IsKeyChar);
      var s := Run(f, k, IsSpace);
      var o := Run(f, s, IsOpChar);
      if k == 1 || o == s then None
      else
        match PropTail(f, s, o)
        case None => None
        case Some(ov) => Some((f[1..k], ov.0, ov.1))
  }

  /** The operator and the value, once the operator run `f[s..o]` is known.
      The value is the line after the blanks that follow the operator. When
      only blanks follow, `(.+)` takes one of them; when nothing but line
      breaks follows, the regex backtracks and the operator gives up its last
      character to the value. */
  function PropTail(f: string, s: nat, o: nat): (r: Option<(string, string)>)
    requires s < o <= |f|
    ensures r.Some? ==> r.value.0 != ""
  {
    var v := Run(f, o, IsSpace);
    if v < |f| then Some((f[s..o], Strip(f[v..Run(f, v, c => c != '\n')])))
    else if exists p :: o <= p < |f| && f[p] != '\n' then Some((f[s..o], ""))
    else if o - s >= 2 then Some((f[s..o - 1], Strip([f[o - 1]])))
    else None
  }

  lemma PropTailPlain(f: string, s: nat, o: nat)
    requires s < o < |f| && f[o] == ' ' && o + 1 < |f| && !IsSpace(f[o + 1])
    requires forall i :: o < i < |f| ==> f[i] != '\n'
    ensures PropTail(f, s, o) == Some((f[s..o], Strip(f[o + 1..])))
  {
    RunStops(f, o, o + 1, IsSpace);
    RunStops(f, o + 1, |f|, c => c != '\n');
    assert f[o + 1..|f|] == f[o + 1..];
  }

  /** A filter string as nodes/select.py parses it: a function filter,
      else a property filter carrying the operator as typed, else nothing. */
  function ParseFilterAsWritten(f: string): Option<Filter> {
    match FuncParse(f)
    case Some(fv) => Some(FunctionFilter(fv.0, fv.1))
    case None =>
      match PropParse(f)
      case Some(pv) => Some(PropertyFilter(pv.0, pv.1, pv.2))
      case None => None
  }

  /** The spelling of an operator the resolver understands: equality is
      `'eq'`. */
  function ResolverOp(op: string): string {
    if op == "==" then "eq" else op
  }

  /** A filter string as Select means it: parsed as written, with the
      equality operator `'=='` handed on as `'eq'`, the spelling
      `resolve_selection` tests for. Nothing else changes. */
  function ParseFilter(f: string): (r: Option<Filter>)
    ensures r.None? <==> ParseFilterAsWritten(f).None?
    ensures !(r.Some? && r.value.PropertyFilter?) ==> r == ParseFilterAsWritten(f)
    ensures r.Some? && r.value.PropertyFilter? ==>
      var g := ParseFilterAsWritten(f).value;
      g.PropertyFilter? && r.value == PropertyFilter(g.key, ResolverOp(g.op), g.value)
  {
    match ParseFilterAsWritten(f)
    case Some(PropertyFilter(k, op, v)) => Some(PropertyFilter(k, ResolverOp(op), v))
    case other => other
  }

  /** The loop over `[f.strip() for f in filter_part.split('and')]`;
      strings matching neither form are dropped. */
  function ParseFilters(pieces: seq<string>): (r: seq<Filter>)
    ensures |r| <= |pieces|
  {
    if pieces == [] then []
    else
      (match ParseFilter(Strip(pieces[0])) case Some(f) => [f] case None => [])
      + ParseFilters(pieces[1..])
  }

  /** `parse_expression`: the raw text is kept, the path part becomes the
      glob, and the filter part is cut at every occurrence of `'and'`. */
  function ParseExpression(e: string): (r: Query)
    ensures r.raw == e
    ensures r.glob != "" && '[' !in r.glob
    ensures '[' !in e ==> r.filters == [] && r.glob == (if LStrip(e) == "" then DefaultGlob else Strip(e))
  {
    var filters := match FilterPart(e)
      case None => []
      case Some(fp) => ParseFilters(Split(fp, "and"));
    assert '[' !in e ==> Bracket(e) == |e| && e[..|e|] == e;
    Query(e, PathGlob(e), filters)
  }

  /** `FN_select.execute`: the Expression input when truthy, else the
      node's `expression` property; a value that is not a string makes
      `re.match` raise. */
  function Select(kwargs: Props, expression: string, outId: string): (r: Option<Value>)
    ensures Truthy(Get(kwargs, "Expression")) && !Get(kwargs, "Expression").VStr? <==> r.None?
    ensures r.Some? ==> (r.value.VDict? && r.value.d.Keys == {outId} && r.value.d[outId].VQuery?
      && r.value.d[outId].q.raw == (if Truthy(Get(kwargs, "Expression")) then Get(kwargs, "Expression").s else expression))
  {
    var e := GetOr(kwargs, "Expression", VStr(expression));
    if !e.VStr? then None else Some(Out(outId, VQuery(ParseExpression(e.s))))
  }

  // ---------------------------------------------------------------------
  // Round trips

  /** The `len` characters of `s` from `k`. */
  function Window(s: string, k: nat, len: nat): string
    requires k + len <= |s|
  {
    s[k..k + len]
  }

  /** No occurrence of `sep` inside `s`. */
  predicate Free(s: string, sep: string) {
    forall k :: 0 <= k && k + |sep| <= |s| ==> Window(s, k, |sep|) != sep
  }

  lemma {:induction false} SplitFree(s: string, sep: string)
    requires sep != "" && Free(s, sep)
    ensures Split(s, sep) == [s]
    decreases |s|
  {
    if |s| >= |sep| {
      assert Window(s, 0, |sep|) != sep;
      assert s[..|sep|] == Window(s, 0, |sep|);
      assert Free(s[1..], sep) by {
        forall k | 0 <= k && k + |sep| <= |s[1..]| ensures Window(s[1..], k, |sep|) != sep {
          assert Window(s[1..], k, |sep|) == Window(s, k + 1, |sep|);
        }
      }
      SplitFree(s[1..], sep);
      assert [s[0]] + s[1..] == s;
    }
  }

  predicate Words(s: string) {
    s != "" && forall k :: 0 <= k < |s| ==> IsWord(s[k])
  }

  /** How a function filter is written: `name('arg')`. */
  function FuncText(name: string, arg: string): string {
    name + "('" + arg + "')"
  }

  /** A function filter written out parses back to its name and argument. */
  lemma FuncRoundTrip(name: string, arg: string)
    requires Words(name) && Words(arg)
    ensures FuncParse(FuncText(name, arg)) == Some((name, arg))
  {
    var f := FuncText(name, arg);
    var a := |name|;
    assert f[a] == '(' && f[a + 1] == '\'' && f[a + 2 + |arg|] == '\'' && f[a + 3 + |arg|] == ')';
    assert forall k :: 0 <= k < a ==> f[0 + k] == name[k];
    assert forall k :: 0 <= k < |arg| ==> f[a + 2 + k] == arg[k];
    FuncParsed(f, name, arg);
  }

  /** `FuncParse` on a string that spells `name('arg')` character by
      character. */
  lemma FuncParsed(f: string, name: string, arg: string)
    requires Words(name) && Words(arg)
    requires |f| == |name| + |arg| + 4
    requires f[|name|] == '(' && f[|name| + 1] == '\'' && f[|name| + 2 + |arg|] == '\'' && f[|name| + 3 + |arg|] == ')'
    requires forall k :: 0 <= k < |name| ==> f[0 + k] == name[k]
    requires forall k :: 0 <= k < |arg| ==> f[|name| + 2 + k] == arg[k]
    ensures FuncParse(f) == Some((name, arg))
  {
    var a := |name|;
    RunOver(f, 0, name, IsWord);
    RunStops(f, a, a, IsSpace);
    RunStops(f, a + 1, a + 1, IsSpace);
    RunOver(f, a + 2, arg, IsWord);
    RunStops(f, a + 3 + |arg|, a + 3 + |arg|, IsSpace);
    SliceAt(f, 0, name);
    SliceAt(f, a + 2, arg);
    assert f[..a] == f[0..0 + a];
  }

  /** How a property filter is written: `@key op value`. */
  function PropText(key: string, op: string, value: string): string {
    "@" + key + op + " " + value
  }

  /** A property filter written out parses back to its key, operator and
      value, for a value without line breaks or surrounding whitespace. */
  lemma PropRoundTrip(key: string, op: string, value: string)
    requires key != "" && forall k :: 0 <= k < |key| ==> IsKeyChar(key[k])
    requires op != "" && forall k :: 0 <= k < |op| ==> IsOpChar(op[k])
    requires value != "" && '\n' !in value && !IsSpace(value[0]) && !IsSpace(value[|value| - 1])
    ensures PropParse(PropText(key, op, value)) == Some((key, op, value))
  {
    PropTextChars(key, op, value);
    PropParsed(PropText(key, op, value), key, op, value);
  }

  /** `f` spells `@key op value`, character by character. */
  ghost predicate Spells(f: string, key: string, op: string, value: string) {
    var k := 1 + |key|;
    var o := k + |op|;
    |f| == o + 1 + |value| && f[0] == '@' && f[o] == ' '
    && (forall j :: 0 <= j < |key| ==> f[1 + j] == key[j])
    && (forall j :: 0 <= j < |op| ==> f[k + j] == op[j])
    && (forall j :: 0 <= j < |value| ==> f[o + 1 + j] == value[j])
  }

  lemma PropTextChars(key: string, op: string, value: string)
    ensures Spells(PropText(key, op, value), key, op, value)
  {
  }

  lemma PropParsed(f: string, key: string, op: string, value: string)
    requires Spells(f, key, op, value)
    requires key != "" && forall k :: 0 <= k < |key| ==> IsKeyChar(key[k])
    requires op != "" && forall k :: 0 <= k < |op| ==> IsOpChar(op[k])
    requires value != "" && '\n' !in value && !IsSpace(value[0]) && !IsSpace(value[|value| - 1])
    ensures PropParse(f) == Some((key, op, value))
  {
    var k := 1 + |key|;
    var o := k + |op|;
    assert f[k + 0] == op[0];
    RunOver(f, 1, key, IsKeyChar);
    RunStops(f, k, k, IsSpace);
    RunOver(f, k, op, IsOpChar);
    SliceAt(f, 1, key);
    PropValue(f, key, op, value);
    PropParseAt(f, k, o);
  }

  /** `PropParse` on a string whose runs are known. */
  lemma PropParseAt(f: string, k: nat, o: nat)
    requires |f| > 0 && f[0] == '@' && 1 < k < o <= |f|
    requires Run(f, 1, IsKeyChar) == k && Run(f, k, IsSpace) == k && Run(f, k, IsOpChar) == o
    requires PropTail(f, k, o).Some?
    ensures PropParse(f) == Some((f[1..k], PropTail(f, k, o).value.0, PropTail(f, k, o).value.1))
  {
  }

  /** The operator and value of a filter spelled out. */
  lemma PropValue(f: string, key: string, op: string, value: string)
    requires Spells(f, key, op, value) && op != ""
    requires value != "" && '\n' !in value && !IsSpace(value[0]) && !IsSpace(value[|value| - 1])
    ensures PropTail(f, 1 + |key|, 1 + |key| + |op|) == Some((op, value))
  {
    var k := 1 + |key|;
    var o := k + |op|;
    SliceAt(f, k, op);
    SliceAt(f, o + 1, value);
    assert f[o + 1..] == f[o + 1..o + 1 + |value|];
    assert forall i :: o < i < |f| ==> f[i] != '\n' by {
      forall i | o < i < |f| ensures f[i] != '\n' {
        assert f[o + 1 + (i - o - 1)] == value[i - o - 1];
        assert value[i - o - 1] in value;
      }
    }
    assert f[o + 1 + 0] == value[0];
    PropTailPlain(f, k, o);
    StripNoop(value);
  }

  /** A run over the word `w` that sits at `i` and that the next character
      stops. */
  lemma RunOver(s: string, i: nat, w: string, p: char -> bool)
    requires i + |w| <= |s| && forall k :: 0 <= k < |w| ==> s[i + k] == w[k] && p(w[k])
    requires i + |w| == |s| || !p(s[i + |w|])
    ensures Run(s, i, p) == i + |w|
  {
    forall k | i <= k < i + |w| ensures p(s[k]) {
      assert s[i + (k - i)] == w[k - i];
    }
    RunStops(s, i, i + |w|, p);
  }

  /** The characters of `w` at `i` onwards make the slice `w`. */
  lemma SliceAt(s: string, i: nat, w: string)
    requires i + |w| <= |s| && forall k :: 0 <= k < |w| ==> s[i + k] == w[k]
    ensures s[i..i + |w|] == w
  {
    forall k | 0 <= k < |w| ensures s[i..i + |w|][k] == w[k] {
      assert s[i..i + |w|][k] == s[i + k];
    }
  }

  /** A plain path with one function filter parses to exactly that path
      and that filter, as long as the filter text holds no `'and'`. */
  lemma SelectRoundTrip(path: string, name: string, arg: string)
    requires path != "" && '[' !in path && !IsSpace(path[0]) && !IsSpace(path[|path| - 1])
    requires Words(name) && Words(arg) && Free(FuncText(name, arg), "and")
    ensures ParseExpression(path + "[" + FuncText(name, arg) + "]")
      == Query(path + "[" + FuncText(name, arg) + "]", path, [FunctionFilter(name, arg)])
  {
    SelectParts(path, name, arg);
    SelectFilters(name, arg);
  }

  /** The glob and the bracketed text of such an expression. */
  lemma SelectParts(path: string, name: string, arg: string)
    requires path != "" && '[' !in path && !IsSpace(path[0]) && !IsSpace(path[|path| - 1])
    requires Words(name) && Words(arg)
    ensures PathGlob(path + "[" + FuncText(name, arg) + "]") == path
    ensures FilterPart(path + "[" + FuncText(name, arg) + "]") == Some(FuncText(name, arg))
  {
    var ft := FuncText(name, arg);
    PathBeforeBracket(path, ft + "]");
    assert path + "[" + (ft + "]") == path + "[" + ft + "]";
    assert ']' !in ft by {
      assert forall k :: 0 <= k < |name| ==> name[k] != ']';
      assert forall k :: 0 <= k < |arg| ==> arg[k] != ']';
    }
    BracketedPart(path, ft);
  }

  /** The filter text of such an expression parses to the one filter. */
  lemma SelectFilters(name: string, arg: string)
    requires Words(name) && Words(arg) && Free(FuncText(name, arg), "and")
    ensures ParseFilters(Split(FuncText(name, arg), "and")) == [FunctionFilter(name, arg)]
  {
    var ft := FuncText(name, arg);
    SplitFree(ft, "and");
    assert !IsSpace(ft[0]) by { assert ft[0] == name[0]; }
    StripNoop(ft);
    FuncRoundTrip(name, arg);
    assert ParseFilters([ft]) == [FunctionFilter(name, arg)];
  }

  /** A plain path followed by a bracket is the glob. */
  lemma PathBeforeBracket(path: string, rest: string)
    requires path != "" && '[' !in path && !IsSpace(path[0]) && !IsSpace(path[|path| - 1])
    ensures Bracket(path + "[" + rest) == |path|
    ensures PathGlob(path + "[" + rest) == path
  {
    var e := path + "[" + rest;
    var p := |path|;
    assert forall k :: 0 <= k < p ==> e[k] == path[k];
    assert forall k :: 0 <= k < p ==> e[k] != '[' by {
      forall k | 0 <= k < p ensures e[k] != '[' { assert path[k] in path; }
    }
    assert e[p] == '[';
    RunStops(e, 0, p, c => c != '[');
    assert e[..p] == path;
    StripNoop(path);
  }

  /** The text of a bracket pair without `']'` inside is the filter part. */
  lemma BracketedPart(path: string, ft: string)
    requires Bracket(path + "[" + ft + "]") == |path|
    requires ft != "" && ']' !in ft
    ensures FilterPart(path + "[" + ft + "]") == Some(ft)
  {
    var e := path + "[" + ft + "]";
    var p := |path|;
    assert forall k :: 0 <= k < |ft| ==> e[p + 1 + k] == ft[k];
    assert forall k :: p + 1 <= k < p + 1 + |ft| ==> e[k] != ']' by {
      forall k | p + 1 <= k < p + 1 + |ft| ensures e[k] != ']' {
        assert e[k] == ft[k - p - 1];
        assert ft[k - p - 1] in ft;
      }
    }
    assert e[p + 1 + |ft|] == ']';
    RunStops(e, p + 1, p + 1 + |ft|, c => c != ']');
    assert e[p + 1..p + 1 + |ft|] == ft;
  }

  /** The property filters Select produces carry the operator as typed,
      `'=='` for an equality; the resolver only honours a `'type'` filter
      whose operator is the literal `'eq'`, so a Select-made type filter
      lets no prim through. */
  lemma TypeEqualityKeepsNothing(m: Arena, hs: seq<Handle>, value: string)
    requires InArena(m, hs)
    requires value != "" && '\n' !in value && !IsSpace(value[0]) && !IsSpace(value[|value| - 1])
    ensures ParseFilterAsWritten(PropText("type", "==", value)) == Some(PropertyFilter("type", "==", value))
    ensures FilterKeep(m, [PropertyFilter("type", "==", value)], hs) == []
  {
    PropRoundTrip("type", "==", value);
    assert FuncParse(PropText("type", "==", value)).None? by {
      RunStops(PropText("type", "==", value), 0, 0, IsWord);
    }
    TypeFilterNeedsEq(m, [PropertyFilter("type", "==", value)], hs, 0);
  }

  /** With the equality operator handed on as `'eq'`, a Select-made
      `@type == value` filter keeps exactly the prims whose datablock type is
      `value`. */
  lemma TypeEqualityKeepsType(m: Arena, hs: seq<Handle>, value: string)
    requires InArena(m, hs)
    requires value != "" && '\n' !in value && !IsSpace(value[0]) && !IsSpace(value[|value| - 1])
    ensures ParseFilter(PropText("type", "==", value)) == Some(PropertyFilter("type", "eq", value))
    ensures forall h :: h in FilterKeep(m, [PropertyFilter("type", "eq", value)], hs) <==>
      h in hs && Get(m[h].props, "datablock_type") == VStr(value)
  {
    TypeEqualityKeepsNothing(m, hs, value);
    var f := PropertyFilter("type", "eq", value);
    FilterKeepMem(m, [f], hs);
    forall h | h in hs
      ensures KeepsAll(m[h].props, [f]) <==> Get(m[h].props, "datablock_type") == VStr(value)
    {
      assert KeepsAll(m[h].props, [f]) <==> KeepsOne(m[h].props, [f][0]);
    }
  }

  // ---------------------------------------------------------------------
  // Combining queries

  /** `FN_union_selection.execute`: both missing gives None, one missing
      gives the other, and two queries give `(A) or (B)` with path `'*'`
      and a single union filter. A truthy non-query raises on
      `raw_expression`. */
  function Union(a: Value, b: Value, outId: string): (r: Option<Value>)
    ensures !Truthy(a) && !Truthy(b) ==> r == Some(Out(outId, VNone))
    ensures !Truthy(a) && Truthy(b) ==> r == Some(Out(outId, b))
    ensures Truthy(a) && !Truthy(b) ==> r == Some(Out(outId, a))
    ensures a.VQuery? && b.VQuery? ==>
      r == Some(Out(outId, VQuery(Query("(" + a.q.raw + ") or (" + b.q.raw + ")", "*", [CombineFilter("union", a.q, b.q)]))))
    ensures r.None? <==> Truthy(a) && Truthy(b) && !(a.VQuery? && b.VQuery?)
  {
    if !Truthy(a) && !Truthy(b) then Some(Out(outId, VNone))
    else if !Truthy(a) then Some(Out(outId, b))
    else if !Truthy(b) then Some(Out(outId, a))
    else if !a.VQuery? || !b.VQuery? then None
    else Some(Out(outId, VQuery(Query("(" + a.q.raw + ") or (" + b.q.raw + ")", "*", [CombineFilter("union", a.q, b.q)]))))
  }

  /** `FN_intersection_selection.execute`: either missing gives None. */
  function Intersection(a: Value, b: Value, outId: string): (r: Option<Value>)
    ensures !Truthy(a) || !Truthy(b) ==> r == Some(Out(outId, VNone))
    ensures a.VQuery? && b.VQuery? ==>
      r == Some(Out(outId, VQuery(Query("(" + a.q.raw + ") and (" + b.q.raw + ")", "*", [CombineFilter("intersection", a.q, b.q)]))))
    ensures r.None? <==> Truthy(a) && Truthy(b) && !(a.VQuery? && b.VQuery?)
  {
    if !Truthy(a) || !Truthy(b) then Some(Out(outId, VNone))
    else if !a.VQuery? || !b.VQuery? then None
    else Some(Out(outId, VQuery(Query("(" + a.q.raw + ") and (" + b.q.raw + ")", "*", [CombineFilter("intersection", a.q, b.q)]))))
  }

  /** `FN_difference_selection.execute`: a missing A gives None, a missing
      B gives A unchanged. */
  function Difference(a: Value, b: Value, outId: string): (r: Option<Value>)
    ensures !Truthy(a) ==> r == Some(Out(outId, VNone))
    ensures Truthy(a) && !Truthy(b) ==> r == Some(Out(outId, a))
    ensures a.VQuery? && b.VQuery? ==>
      r == Some(Out(outId, VQuery(Query("(" + a.q.raw + ") and not (" + b.q.raw + ")", "*", [CombineFilter("difference", a.q, b.q)]))))
    ensures r.None? <==> Truthy(a) && Truthy(b) && !(a.VQuery? && b.VQuery?)
  {
    if !Truthy(a) then Some(Out(outId, VNone))
    else if !Truthy(b) then Some(Out(outId, a))
    else if !a.VQuery? || !b.VQuery? then None
    else Some(Out(outId, VQuery(Query("(" + a.q.raw + ") and not (" + b.q.raw + ")", "*", [CombineFilter("difference", a.q, b.q)]))))
  }

  /** A query whose filters are all combinators. */
  predicate Combined(q: Query) {
    q.glob == "*" && q.filters != [] && forall i :: 0 <= i < |q.filters| ==> q.filters[i].CombineFilter?
  }

  lemma {:induction false} StarKeepsAll(m: Arena, hs: seq<Handle>)
    requires InArena(m, hs)
    ensures GlobFilter(m, "*", hs) == hs
    decreases |hs|
  {
    if hs != [] {
      StarMatchesAll(m[hs[0]].path);
      StarKeepsAll(m, hs[1..]);
    }
  }

  lemma {:induction false} CombinatorsKeepAll(m: Arena, filters: seq<Filter>, hs: seq<Handle>)
    requires InArena(m, hs) && forall i :: 0 <= i < |filters| ==> filters[i].CombineFilter?
    ensures FilterKeep(m, filters, hs) == hs
    decreases |hs|
  {
    if hs != [] {
      assert KeepsAll(m[hs[0]].props, filters);
      CombinatorsKeepAll(m, filters, hs[1..]);
    }
  }

  lemma CombinedKeepsAll(m: Arena, n: nat, root: Handle, q: Query)
    requires WF(m, n) && root in m && Combined(q)
    ensures Selection(m, n, root, q) == Bfs(m, n, [root])
  {
    BfsSubtree(m, n, root);
    var all := Bfs(m, n, [root]);
    StarKeepsAll(m, all);
    CombinatorsKeepAll(m, q.filters, all);
  }

  /** `resolve_selection` does not interpret the combinator filters, so the
      union, the intersection and the difference of two queries all select
      every prim of the scene, in breadth-first order, whatever A and B
      select. */
  lemma CombinedSelectsAll(m: Arena, n: nat, root: Handle, a: Query, b: Query, outId: string)
    requires WF(m, n) && root in m
    ensures Selection(m, n, root, Union(VQuery(a), VQuery(b), outId).value.d[outId].q) == Bfs(m, n, [root])
    ensures Selection(m, n, root, Intersection(VQuery(a), VQuery(b), outId).value.d[outId].q) == Bfs(m, n, [root])
    ensures Selection(m, n, root, Difference(VQuery(a), VQuery(b), outId).value.d[outId].q) == Bfs(m, n, [root])
  {
    CombinedKeepsAll(m, n, root, Union(VQuery(a), VQuery(b), outId).value.d[outId].q);
    CombinedKeepsAll(m, n, root, Intersection(VQuery(a), VQuery(b), outId).value.d[outId].q);
    CombinedKeepsAll(m, n, root, Difference(VQuery(a), VQuery(b), outId).value.d[outId].q);
  }

  /** Whether a prim that A's selection holds (`inA`) and B's holds (`inB`)
      belongs to the combination; the nodes make the kinds `union`,
      `intersection` and `difference` only. */
  predicate Combines(kind: string, inA: bool, inB: bool) {
    if kind == "union" then inA || inB
    else if kind == "intersection" then inA && inB
    else inA && !inB
  }

  /** The prims of `hs`, in order, that the combination keeps. */
  function KeepWhere(hs: seq<Handle>, sa: seq<Handle>, sb: seq<Handle>, kind: string): (r: seq<Handle>)
    ensures forall h :: h in r <==> h in hs && Combines(kind, h in sa, h in sb)
    ensures |r| <= |hs|
  {
    if hs == [] then []
    else (if Combines(kind, hs[0] in sa, hs[0] in sb) then [hs[0]] else []) + KeepWhere(hs[1..], sa, sb, kind)
  }

  /** The selection the combinator nodes evidently intend: a query they made
      selects, in breadth-first order, the prims of the scene that A's and
      B's selections combine to; any other query selects what
      `resolve_selection` selects. */
  function IntendedSelection(m: Arena, n: nat, root: Handle, q: Query): (r: seq<Handle>)
    requires WF(m, n) && root in m
    decreases q
  {
    if |q.filters| == 1 && q.filters[0].CombineFilter? then
      var f := q.filters[0];
      assert f in q.filters;
      KeepWhere(Bfs(m, n, [root]), IntendedSelection(m, n, root, f.a), IntendedSelection(m, n, root, f.b), f.kind)
    else Selection(m, n, root, q)
  }

  /** The union selects the prims of the scene either query selects. */
  lemma IntendedUnion(m: Arena, n: nat, root: Handle, a: Query, b: Query, outId: string, h: Handle)
    requires WF(m, n) && root in m
    ensures h in IntendedSelection(m, n, root, Union(VQuery(a), VQuery(b), outId).value.d[outId].q)
      <==> h in Bfs(m, n, [root]) && (h in IntendedSelection(m, n, root, a) || h in IntendedSelection(m, n, root, b))
  {
    var q := Union(VQuery(a), VQuery(b), outId).value.d[outId].q;
    assert q.filters == [CombineFilter("union", a, b)];
  }

  /** The intersection selects the prims of the scene both queries select. */
  lemma IntendedIntersection(m: Arena, n: nat, root: Handle, a: Query, b: Query, outId: string, h: Handle)
    requires WF(m, n) && root in m
    ensures h in IntendedSelection(m, n, root, Intersection(VQuery(a), VQuery(b), outId).value.d[outId].q)
      <==> h in Bfs(m, n, [root]) && h in IntendedSelection(m, n, root, a) && h in IntendedSelection(m, n, root, b)
  {
    var q := Intersection(VQuery(a), VQuery(b), outId).value.d[outId].q;
    assert q.filters == [CombineFilter("intersection", a, b)];
  }

  /** The difference selects the prims of the scene A selects and B does
      not. */
  lemma IntendedDifference(m: Arena, n: nat, root: Handle, a: Query, b: Query, outId: string, h: Handle)
    requires WF(m, n) && root in m
    ensures h in IntendedSelection(m, n, root, Difference(VQuery(a), VQuery(b), outId).value.d[outId].q)
      <==> h in Bfs(m, n, [root]) && h in IntendedSelection(m, n, root, a) && h !in IntendedSelection(m, n, root, b)
  {
    var q := Difference(VQuery(a), VQuery(b), outId).value.d[outId].q;
    assert q.filters == [CombineFilter("difference", a, b)];
  }

  /** A query less itself selects nothing as intended, where as written it
      selects every prim of the scene. */
  lemma DifferenceWithItself(m: Arena, n: nat, root: Handle, a: Query, outId: string)
    requires WF(m, n) && root in m
    ensures forall h :: h !in IntendedSelection(m, n, root, Difference(VQuery(a), VQuery(a), outId).value.d[outId].q)
    ensures Selection(m, n, root, Difference(VQuery(a), VQuery(a), outId).value.d[outId].q) == Bfs(m, n, [root])
    ensures root in Bfs(m, n, [root])
  {
    var r := IntendedSelection(m, n, root, Difference(VQuery(a), VQuery(a), outId).value.d[outId].q);
    forall h ensures h !in r {
      IntendedDifference(m, n, root, a, a, outId, h);
    }
    CombinedSelectsAll(m, n, root, a, a, outId);
    BfsSubtree(m, n, root);
  }
}
