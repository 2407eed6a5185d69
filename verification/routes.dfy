/**
 The body of the decorator loop in `Foae.parse`: recognising `*.route("...")`
 decorators, collecting their `methods`, defaulting to `get`, extracting the
 `<...>` path parameters and building the `parameters` list from type hints.
 */
module Routes {
  import opened Results
  import opened Syntax
  import opened Text
  import opened TypeMap
  import opened Openapi

  /** A decorator is a route registration: a call of an attribute named `route` whose first argument is a string literal. */
  predicate IsRoute(d: Decorator) {
    d.Call? && d.attr == Some("route") && d.firstArg.Some? && d.firstArg.value.StrLit?
  }

  /** The raw rule of a route decorator, e.g. `/users/<user_id>`. */
  function RuleOf(d: Decorator): string
    requires IsRoute(d)
  {
    d.firstArg.value.s
  }

  /**
   The decorator shapes on which the loop body does not crash: every call has an
   attribute callee, a `route` call has a first argument, and the `methods`
   keyword of a route is a literal list, tuple or set of strings.
   */
  predicate WellFormed(d: Decorator) {
    match d
    case NotCall => true
    case Call(attr, firstArg, keywords) =>
      && attr.Some?
      && (attr.value == "route" ==> firstArg.Some?)
      && (IsRoute(d) ==> forall k :: k in keywords && k.arg == Some("methods") ==> k.value.StrList?)
  }

  /** The lower-cased strings of a list of method names. */
  ghost function LowerSet(items: seq<string>): set<string> {
    set v | v in items :: ToLower(v)
  }

  /** Every lower-cased string of every `methods=[...]` keyword. */
  ghost function MethodKeys(keywords: seq<Keyword>): set<string> {
    set k, v | k in keywords && k.arg == Some("methods") && k.value.StrList? && v in k.value.items :: ToLower(v)
  }

  /** The operation a `methods` entry writes: tagged with the function name, no response. */
  function MethodOperation(name: string): Entry {
    Operation([name], None)
  }

  /** The operation written when a route contributes no method and the definition is empty. */
  function DefaultGet(name: string): Entry {
    Operation([name], Some(map[200 := ResponseObject("Success")]))
  }

  /** The inner loop: `definition[value.s.lower()] = {'tags': [name]}` for each list item. */
  function AddItems(definition: Definition, items: seq<string>, name: string): (r: Definition)
    ensures r.Keys == definition.Keys + LowerSet(items)
    ensures forall m :: m in LowerSet(items) ==> r[m] == MethodOperation(name)
    ensures forall m :: m in definition && m !in LowerSet(items) ==> r[m] == definition[m]
    decreases |items|
  {
    if items == [] then definition
    else
      assert LowerSet(items) == {ToLower(items[0])} + LowerSet(items[1..]) by {
        assert forall v :: v in items <==> v == items[0] || v in items[1..];
      }
      AddItems(definition[ToLower(items[0]) := MethodOperation(name)], items[1..], name)
  }

  lemma MethodKeysCons(keywords: seq<Keyword>)
    requires keywords != []
    ensures MethodKeys(keywords) ==
      (if keywords[0].arg == Some("methods") && keywords[0].value.StrList? then LowerSet(keywords[0].value.items) else {})
      + MethodKeys(keywords[1..])
  {
    assert forall k :: k in keywords <==> k == keywords[0] || k in keywords[1..];
  }

  /** The keyword loop: all `methods` lists of one decorator, in order. */
  function AddMethods(definition: Definition, keywords: seq<Keyword>, name: string): (r: Definition)
    requires forall k :: k in keywords && k.arg == Some("methods") ==> k.value.StrList?
    ensures r.Keys == definition.Keys + MethodKeys(keywords)
    ensures forall m :: m in MethodKeys(keywords) ==> r[m] == MethodOperation(name)
    ensures forall m :: m in definition && m !in MethodKeys(keywords) ==> r[m] == definition[m]
    decreases |keywords|
  {
    if keywords == [] then definition
    else
      var k := keywords[0];
      var next := if k.arg == Some("methods") then AddItems(definition, k.value.items, name) else definition;
      MethodKeysCons(keywords);
      AddMethods(next, keywords[1..], name)
  }

  /** The names of the segments that start with `<`, each without its first and last character, in order. */
  function AngleNames(parts: seq<string>): (r: seq<string>)
    ensures |r| <= |parts|
    ensures r == [] <==> forall i :: 0 <= i < |parts| ==> !StartsWith(parts[i], '<')
    decreases |parts|
  {
    if parts == [] then []
    else
      assert forall i :: 1 <= i < |parts| ==> parts[i] == parts[1..][i - 1];
      (if StartsWith(parts[0], '<') then [DropEnds(parts[0])] else []) + AngleNames(parts[1..])
  }

  /** The names are exactly the trimmed `<` segments: each such segment gives a name, and each name comes from one. */
  lemma {:induction false} AngleNamesMembers(parts: seq<string>)
    ensures forall p :: p in parts && StartsWith(p, '<') ==> DropEnds(p) in AngleNames(parts)
    ensures forall n :: n in AngleNames(parts) ==> exists p :: p in parts && StartsWith(p, '<') && DropEnds(p) == n
    decreases |parts|
  {
    if parts != [] {
      AngleNamesMembers(parts[1..]);
      assert forall p :: p in parts <==> p == parts[0] || p in parts[1..];
    }
  }

  /** Names distribute over concatenation of segment lists: source order is kept. */
  lemma {:induction false} AngleNamesAppend(a: seq<string>, b: seq<string>)
    ensures AngleNames(a + b) == AngleNames(a) + AngleNames(b)
    decreases |a|
  {
    if a == [] {
      assert a + b == b;
    } else {
      var head := if StartsWith(a[0], '<') then [DropEnds(a[0])] else [];
      var rest := a[1..];
      assert (a + b)[0] == a[0];
      assert (a + b)[1..] == rest + b;
      assert AngleNames(a + b) == head + AngleNames(rest + b);
      assert AngleNames(a) == head + AngleNames(rest);
      AngleNamesAppend(rest, b);
      assert head + (AngleNames(rest) + AngleNames(b)) == (head + AngleNames(rest)) + AngleNames(b);
    }
  }

  /** `[part[1:-1] for part in rule.split('/') if part.startswith('<')]`. */
  function PathParams(rule: string): (r: seq<string>)
    ensures '<' !in rule ==> r == []
  {
    var parts := Split(rule, '/');
    assert '<' !in rule ==> forall i :: 0 <= i < |parts| ==> !StartsWith(parts[i], '<') by {
      forall i | 0 <= i < |parts| && '<' !in rule
        ensures !StartsWith(parts[i], '<')
      {
        if StartsWith(parts[i], '<') {
          SplitPiecesFromSource(rule, '/', i, '<');
        }
      }
    }
    AngleNames(parts)
  }

  /** A rule assembled from `/`-free segments has exactly the names of its `<` segments as path parameters. */
  lemma PathParamsOfSegments(segments: seq<string>)
    requires |segments| >= 1
    requires forall i :: 0 <= i < |segments| ==> '/' !in segments[i]
    ensures PathParams(Join(segments, '/')) == AngleNames(segments)
  {
    SplitJoin(segments, '/');
  }

  /** Path parameters of `x + "/" + y` are those of `x` followed by those of `y`. */
  lemma PathParamsConcat(x: string, y: string)
    ensures PathParams(x + "/" + y) == PathParams(x) + PathParams(y)
  {
    SplitConcat(x, y, '/');
    AngleNamesAppend(Split(x, '/'), Split(y, '/'));
  }

  /** A `/`-free segment starting with `<` is one path parameter: the segment without its two ends. */
  lemma SegmentParam(seg: string)
    requires '/' !in seg && StartsWith(seg, '<')
    ensures PathParams(seg) == [DropEnds(seg)]
  {
    SplitWithoutSeparator(seg, '/');
    assert [seg][1..] == [];
  }

  /** A `/`-free segment `<name>` is one path parameter, `name`. */
  lemma PlaceholderSegment(name: string)
    requires '/' !in name
    ensures PathParams("<" + name + ">") == [name]
  {
    var seg := "<" + name + ">";
    SegmentParam(seg);
    assert DropEnds(seg) == name;
  }

  /** A rule `base/<name>` with no `<` in `base` has the one path parameter `name`. */
  lemma PlaceholderRule(base: string, name: string)
    requires '<' !in base && '/' !in name
    ensures PathParams(base + "/" + ("<" + name + ">")) == [name]
  {
    PathParamsConcat(base, "<" + name + ">");
    PlaceholderSegment(name);
  }

  /**
   A last segment with `<` but no closing `>` still yields a parameter:
   `part[1:-1]` drops its last character, whatever that character is.
   */
  lemma UnclosedPlaceholder(base: string, name: string)
    requires '<' !in base && '/' !in name && |name| >= 1
    ensures PathParams(base + "/" + ("<" + name)) == [name[..|name| - 1]]
  {
    var seg := "<" + name;
    PathParamsConcat(base, seg);
    SegmentParam(seg);
    assert [seg[0]] + name[..|name| - 1] + [seg[|seg| - 1]] == seg;
  }

  /**
   The `type_hints` dict: each parameter whose annotation is a simple name maps
   to `_map_type(annotation.id)`. The identifier is a string, so every value is `string`.
   */
  function Hints(params: seq<Param>): (r: map<string, string>)
    ensures r.Keys == AnnotatedNames(params)
    ensures forall n :: n in r ==> r[n] == "string"
    decreases |params|
  {
    if params == [] then map[]
    else
      var p := params[0];
      var first := if p.annotation.Some? then map[p.name := MapType(StrValue(p.annotation.value))] else map[];
      assert forall q :: q in params <==> q == p || q in params[1..];
      first + Hints(params[1..])
  }

  /** `names[i]` is the first name without a type hint. */
  ghost predicate FirstMissing(names: seq<string>, hints: map<string, string>, i: int) {
    && 0 <= i < |names|
    && names[i] !in hints
    && forall j :: 0 <= j < i ==> names[j] in hints
  }

  /**
   The `parameters` list comprehension: one entry per path parameter, in order,
   or the `KeyError` of the first name that has no type hint.
   */
  function BuildParameters(names: seq<string>, hints: map<string, string>): (r: Result<seq<PathParameter>, string>)
    ensures r.Success? <==> forall i :: 0 <= i < |names| ==> names[i] in hints
    ensures r.Success? ==> |r.value| == |names|
    ensures r.Success? ==> forall i :: 0 <= i < |names| ==>
      r.value[i] == PathParameter(names[i], "path", true, hints[names[i]])
    ensures r.Failure? ==> r.error !in hints
    ensures r.Failure? ==> exists i :: FirstMissing(names, hints, i) && names[i] == r.error
    decreases |names|
  {
    if names == [] then Success([])
    else if names[0] !in hints then Failure(names[0])
    else
      match BuildParameters(names[1..], hints)
      case Failure(e) =>
        assert exists i :: FirstMissing(names, hints, i) && names[i] == e by {
          var i :| FirstMissing(names[1..], hints, i) && names[1..][i] == e;
          assert names[i + 1] == e;
          assert forall j :: 0 <= j < i + 1 ==> names[j] in hints by {
            forall j | 0 <= j < i + 1
              ensures names[j] in hints
            {
              if j > 0 {
                assert names[j] == names[1..][j - 1];
              }
            }
          }
          assert FirstMissing(names, hints, i + 1);
        }
        Failure(e)
      case Success(rest) =>
        Success([PathParameter(names[0], "path", true, hints[names[0]])] + rest)
  }

  /** The names of the parameters whose annotation is a simple name: the keys of `type_hints`. */
  ghost function AnnotatedNames(params: seq<Param>): set<string> {
    set p | p in params && p.annotation.Some? :: p.name
  }

  /** The `parameters` list a successful rule yields: `in: path`, `required: True`, type `string`. */
  ghost function PathEntries(names: seq<string>): seq<PathParameter> {
    seq(|names|, i requires 0 <= i < |names| => PathParameter(names[i], "path", true, "string"))
  }

  /** The list entry of a single path parameter. */
  lemma PathEntriesOne(name: string)
    ensures PathEntries([name]) == [PathParameter(name, "path", true, "string")]
  {
  }

  /** The state of the decorator loop: the definition so far and the last rule assigned. */
  datatype Draft = Draft(definition: Definition, rule: string)

  /**
   Crash-free shapes for decorator `d` of `f`. Besides `WellFormed`, the
   `type_hints` comprehension also walks `kw_defaults`, whose entries have no
   `annotation`; it crashes whenever `f` has keyword-only parameters, which
   is only reached for a route with a `<` segment.
   */
  predicate Safe(f: FunctionDef, d: Decorator) {
    WellFormed(d) && (IsRoute(d) && PathParams(RuleOf(d)) != [] ==> f.kwOnlyArgs == [])
  }

  /**
   The `methods` loop followed by the `if not definition` default: the method
   keys are added, and a definition that is still empty gets the default `get`.
   */
  function CollectMethods(definition: Definition, keywords: seq<Keyword>, name: string): (r: Definition)
    requires forall k :: k in keywords && k.arg == Some("methods") ==> k.value.StrList?
    ensures r.Keys == definition.Keys + MethodKeys(keywords)
      + (if definition == map[] && MethodKeys(keywords) == {} then {"get"} else {})
    ensures forall m :: m in MethodKeys(keywords) ==> r[m] == MethodOperation(name)
    ensures definition == map[] && MethodKeys(keywords) == {} ==> r == map["get" := DefaultGet(name)]
    ensures forall k :: k in definition && k !in MethodKeys(keywords) ==> r[k] == definition[k]
  {
    var withMethods := AddMethods(definition, keywords, name);
    if withMethods == map[] then withMethods["get" := DefaultGet(name)] else withMethods
  }

  /**
   Two method loops in a row, the first adding at least one method: the second
   sees a non-empty definition, so the keys are the two method sets and nothing else.
   */
  lemma CollectTwice(first: seq<Keyword>, second: seq<Keyword>, name: string)
    requires forall k :: k in first && k.arg == Some("methods") ==> k.value.StrList?
    requires forall k :: k in second && k.arg == Some("methods") ==> k.value.StrList?
    requires MethodKeys(first) != {}
    ensures var r := CollectMethods(CollectMethods(map[], first, name), second, name);
      && r.Keys == MethodKeys(first) + MethodKeys(second)
      && forall m :: m in r ==> r[m] == MethodOperation(name)
  {
    var once := CollectMethods(map[], first, name);
    var m :| m in MethodKeys(first);
    assert m in once;
  }

  /**
   The path-parameter block: nothing when the rule has no `<` segment, else the
   `parameters` key is (over)written, or the `KeyError` of an unannotated name.
   */
  function AttachParameters(definition: Definition, names: seq<string>, params: seq<Param>): (r: Result<Definition, string>)
    ensures names == [] ==> r == Success(definition)
    ensures r.Success? <==> forall i :: 0 <= i < |names| ==> names[i] in AnnotatedNames(params)
    ensures r.Failure? ==> r.error in names && r.error !in AnnotatedNames(params)
    ensures r.Success? && names != [] ==> r.value == definition["parameters" := Parameters(PathEntries(names))]
  {
    if names == [] then Success(definition)
    else
      match BuildParameters(names, Hints(params))
      case Failure(missing) => Failure(missing)
      case Success(list) =>
        assert list == PathEntries(names);
        Success(definition["parameters" := Parameters(list)])
  }

  /** `name` is a path parameter of route `d` that no simple-name annotation of `f` covers: `type_hints[name]` raises. */
  ghost predicate MissingHint(f: FunctionDef, d: Decorator, name: string) {
    IsRoute(d) && name in PathParams(RuleOf(d)) && name !in AnnotatedNames(f.args)
  }

  /** Every path parameter of route `d` has a type hint in `f`, so the hint lookup cannot raise. */
  ghost predicate HintsCover(f: FunctionDef, d: Decorator) {
    IsRoute(d) ==> forall n :: n in PathParams(RuleOf(d)) ==> n in AnnotatedNames(f.args)
  }

  /** The methods of every route decorator in the list. */
  ghost function RouteMethods(decorators: seq<Decorator>): set<string> {
    set d, m | d in decorators && IsRoute(d) && m in MethodKeys(d.keywords) :: m
  }

  /**
   A value the decorator loop writes under key `m`: a method's tagged operation,
   the default `get` (the only operation with a `response`), or the `parameters` list.
   */
  ghost predicate Generated(f: FunctionDef, m: string, e: Entry) {
    || e == MethodOperation(f.name)
    || (m == "get" && e == DefaultGet(f.name))
    || (m == "parameters" && e.Parameters?)
  }

  /** One pass of the decorator loop body. */
  function Step(f: FunctionDef, st: Draft, d: Decorator): (r: Result<Draft, string>)
    requires Safe(f, d)
    ensures !IsRoute(d) ==> r == Success(st)
    ensures r.Success? <==> HintsCover(f, d)
    ensures r.Success? ==> forall m :: m in r.value.definition ==>
      m in st.definition || (IsRoute(d) && m in MethodKeys(d.keywords)) || m == "get" || m == "parameters"
    ensures r.Success? ==> forall m :: m in r.value.definition ==>
      (m in st.definition && r.value.definition[m] == st.definition[m]) || Generated(f, m, r.value.definition[m])
    ensures r.Failure? ==> MissingHint(f, d, r.error)
    ensures IsRoute(d) && r.Success? ==> r.value.rule == RuleOf(d)
    ensures IsRoute(d) && r.Success? ==> var names := PathParams(RuleOf(d));
      r.value.definition ==
        if names == [] then CollectMethods(st.definition, d.keywords, f.name)
        else CollectMethods(st.definition, d.keywords, f.name)["parameters" := Parameters(PathEntries(names))]
  {
    if !IsRoute(d) then Success(st)
    else
      var rule := RuleOf(d);
      var definition := CollectMethods(st.definition, d.keywords, f.name);
      assert PathParams(rule) != [] ==> f.args + f.kwOnlyArgs == f.args;
      match AttachParameters(definition, PathParams(rule), f.args + f.kwOnlyArgs)
      case Failure(missing) => Failure(missing)
      case Success(withParameters) => Success(Draft(withParameters, rule))
  }

  /**
   The route test decides whether a decorator takes part in the loop: from an
   empty definition, a decorator that is not a route leaves the state as it was,
   and a route either raises or leaves a non-empty definition.
   */
  lemma RouteTest(f: FunctionDef, st: Draft, d: Decorator)
    requires Safe(f, d) && st.definition == map[]
    ensures IsRoute(d) <==> Step(f, st, d) != Success(st)
  {
    if IsRoute(d) && Step(f, st, d).Success? {
      var collected := CollectMethods(st.definition, d.keywords, f.name);
      assert collected.Keys <= Step(f, st, d).value.definition.Keys;
      if MethodKeys(d.keywords) == {} {
        assert "get" in collected;
      } else {
        var m :| m in MethodKeys(d.keywords);
        assert m in collected;
      }
    }
  }

  /** `decorators[j]` is a route decorator and no route decorator follows it. */
  ghost predicate LastRouteAt(decorators: seq<Decorator>, j: int) {
    && 0 <= j < |decorators|
    && IsRoute(decorators[j])
    && forall k :: j < k < |decorators| ==> !IsRoute(decorators[k])
  }

  /** The rule of the last route decorator in the list, or `fallback` when there is none. */
  function LastRule(decorators: seq<Decorator>, fallback: string): (r: string)
    ensures (forall i :: 0 <= i < |decorators| ==> !IsRoute(decorators[i])) ==> r == fallback
    ensures forall j :: LastRouteAt(decorators, j) ==> r == RuleOf(decorators[j])
    decreases |decorators|
  {
    if decorators == [] then fallback
    else
      var n := |decorators|;
      if IsRoute(decorators[n - 1]) then RuleOf(decorators[n - 1])
      else
        var front := decorators[..n - 1];
        assert forall j :: LastRouteAt(decorators, j) ==> LastRouteAt(front, j);
        LastRule(front, fallback)
  }

  /** Reading the list from the front: a route decorator first becomes the fallback of the rest. */
  lemma {:induction false} LastRuleFront(decorators: seq<Decorator>, fallback: string)
    requires decorators != []
    ensures LastRule(decorators, fallback) ==
      LastRule(decorators[1..], if IsRoute(decorators[0]) then RuleOf(decorators[0]) else fallback)
    decreases |decorators|
  {
    var n := |decorators|;
    if n > 1 && !IsRoute(decorators[n - 1]) {
      LastRuleFront(decorators[..n - 1], fallback);
      assert decorators[..n - 1][1..] == decorators[1..][..n - 2];
    }
  }

  /** Crash-free shapes for every decorator of `f`. */
  predicate FunctionSafe(f: FunctionDef) {
    forall d :: d in f.decorators ==> Safe(f, d)
  }

  /** The route methods of a list are those of its first decorator, if a route, and those of the rest. */
  lemma RouteMethodsCons(decorators: seq<Decorator>)
    requires decorators != []
    ensures RouteMethods(decorators) ==
      (if IsRoute(decorators[0]) then MethodKeys(decorators[0].keywords) else {}) + RouteMethods(decorators[1..])
  {
    assert forall d :: d in decorators <==> d == decorators[0] || d in decorators[1..];
  }

  /** The decorator loop of one function, from state `st`: every decorator is examined, none stops the loop. */
  function Scan(f: FunctionDef, st: Draft, decorators: seq<Decorator>): (r: Result<Draft, string>)
    requires forall d :: d in decorators ==> Safe(f, d)
    ensures (forall d :: d in decorators ==> !IsRoute(d)) ==> r == Success(st)
    ensures r.Success? ==> st.definition.Keys <= r.value.definition.Keys
    ensures r.Success? ==> r.value.rule == LastRule(decorators, st.rule)
    ensures r.Success? ==>
      (r.value.definition == map[] <==> st.definition == map[] && forall d :: d in decorators ==> !IsRoute(d))
    ensures r.Success? ==> forall d :: d in decorators && IsRoute(d) ==> MethodKeys(d.keywords) <= r.value.definition.Keys
    ensures r.Success? ==> forall m :: m in r.value.definition ==>
      m in st.definition || m in RouteMethods(decorators) || m == "get" || m == "parameters"
    ensures r.Success? ==> forall m :: m in r.value.definition ==>
      (m in st.definition && r.value.definition[m] == st.definition[m]) || Generated(f, m, r.value.definition[m])
    ensures r.Success? <==> forall d :: d in decorators ==> HintsCover(f, d)
    ensures r.Failure? ==> exists d :: d in decorators && MissingHint(f, d, r.error)
    decreases |decorators|
  {
    if decorators == [] then Success(st)
    else
      var d := decorators[0];
      assert forall e :: e in decorators <==> e == d || e in decorators[1..];
      LastRuleFront(decorators, st.rule);
      RouteMethodsCons(decorators);
      match Step(f, st, d)
      case Failure(missing) => Failure(missing)
      case Success(next) => Scan(f, next, decorators[1..])
  }

  /** Route `d` has `<` segments, so its pass writes the `parameters` list. */
  ghost predicate HasPlaceholders(d: Decorator) {
    IsRoute(d) && PathParams(RuleOf(d)) != []
  }

  /** `decorators[j]` is a route with `<` segments, and no later route has any. */
  ghost predicate LastPlaceholderAt(decorators: seq<Decorator>, j: int) {
    && 0 <= j < |decorators|
    && HasPlaceholders(decorators[j])
    && forall k :: j < k < |decorators| ==> !HasPlaceholders(decorators[k])
  }

  /** A loop that gets past its first decorator continues from that pass's state. */
  lemma ScanCons(f: FunctionDef, st: Draft, decorators: seq<Decorator>)
    requires decorators != [] && forall d :: d in decorators ==> Safe(f, d)
    requires Scan(f, st, decorators).Success?
    ensures Step(f, st, decorators[0]).Success?
    ensures forall d :: d in decorators[1..] ==> Safe(f, d)
    ensures Scan(f, st, decorators) == Scan(f, Step(f, st, decorators[0]).value, decorators[1..])
  {
  }

  /** One pass: a `parameters` list afterwards is this route's, or, for a route without `<` segments, the one before. */
  lemma StepParameters(f: FunctionDef, st: Draft, d: Decorator)
    requires Safe(f, d) && Step(f, st, d).Success?
    requires var def := Step(f, st, d).value.definition;
      "parameters" in def && def["parameters"].Parameters?
    ensures var e := Step(f, st, d).value.definition["parameters"];
      if HasPlaceholders(d) then e == Parameters(PathEntries(PathParams(RuleOf(d))))
      else "parameters" in st.definition && e == st.definition["parameters"]
  {
    if IsRoute(d) && !HasPlaceholders(d) {
      assert "parameters" !in MethodKeys(d.keywords);
    }
  }

  /**
   A `parameters` list left by the decorator loop was there before the loop and
   no route has `<` segments, or it is the list of the LAST route with `<`
   segments, whichever rule ends up as the key.
   */
  lemma {:induction false} ScanParameters(f: FunctionDef, st: Draft, decorators: seq<Decorator>)
    requires forall d :: d in decorators ==> Safe(f, d)
    requires Scan(f, st, decorators).Success?
    requires var def := Scan(f, st, decorators).value.definition;
      "parameters" in def && def["parameters"].Parameters?
    ensures var e := Scan(f, st, decorators).value.definition["parameters"];
      || ((forall i :: 0 <= i < |decorators| ==> !HasPlaceholders(decorators[i]))
          && "parameters" in st.definition && e == st.definition["parameters"])
      || (exists j :: (LastPlaceholderAt(decorators, j)
          && e == Parameters(PathEntries(PathParams(RuleOf(decorators[j]))))))
    decreases |decorators|
  {
    if decorators != [] {
      var d := decorators[0];
      var rest := decorators[1..];
      ScanCons(f, st, decorators);
      var next := Step(f, st, d).value;
      var e := Scan(f, next, rest).value.definition["parameters"];
      ScanParameters(f, next, rest);
      if j :| LastPlaceholderAt(rest, j) && e == Parameters(PathEntries(PathParams(RuleOf(rest[j])))) {
        LastPlaceholderShift(decorators, j);
      } else {
        StepParameters(f, st, d);
        PlaceholdersCons(decorators);
      }
    }
  }

  /** The last route with `<` segments in the tail is the last one in the whole list. */
  lemma LastPlaceholderShift(decorators: seq<Decorator>, j: int)
    requires decorators != [] && LastPlaceholderAt(decorators[1..], j)
    ensures LastPlaceholderAt(decorators, j + 1)
    ensures decorators[j + 1] == decorators[1..][j]
  {
    assert forall k :: j + 1 < k < |decorators| ==> decorators[k] == decorators[1..][k - 1];
  }

  /** With no route with `<` segments in the tail, the head decides: it is the last such route, or there is none. */
  lemma PlaceholdersCons(decorators: seq<Decorator>)
    requires decorators != []
    requires forall i :: 0 <= i < |decorators[1..]| ==> !HasPlaceholders(decorators[1..][i])
    ensures HasPlaceholders(decorators[0]) ==> LastPlaceholderAt(decorators, 0)
    ensures !HasPlaceholders(decorators[0]) ==> forall i :: 0 <= i < |decorators| ==> !HasPlaceholders(decorators[i])
  {
    assert forall i :: 1 <= i < |decorators| ==> decorators[i] == decorators[1..][i - 1];
  }

  /** A function whose one decorator is safe is safe. */
  lemma SafeOne(f: FunctionDef, d: Decorator)
    requires f.decorators == [d] && Safe(f, d)
    ensures FunctionSafe(f)
  {
  }

  /** A function whose two decorators are both safe is safe. */
  lemma SafeTwo(f: FunctionDef, d1: Decorator, d2: Decorator)
    requires f.decorators == [d1, d2] && Safe(f, d1) && Safe(f, d2)
    ensures FunctionSafe(f)
  {
    forall d | d in f.decorators
      ensures Safe(f, d)
    {
      assert d == d1 || d == d2;
    }
  }

  /** The loop over a one-decorator list is that decorator's step. */
  lemma ScanOne(f: FunctionDef, st: Draft, d: Decorator)
    requires Safe(f, d)
    ensures Scan(f, st, [d]) == Step(f, st, d)
  {
    assert [d][1..] == [];
  }

  /** The loop over two decorators whose steps both succeed ends in the second step's state. */
  lemma ScanTwo(f: FunctionDef, st: Draft, d1: Decorator, d2: Decorator, mid: Draft, last: Draft)
    requires Safe(f, d1) && Safe(f, d2)
    requires Step(f, st, d1) == Success(mid) && Step(f, mid, d2) == Success(last)
    ensures Scan(f, st, [d1, d2]) == Success(last)
  {
    assert [d1, d2][1..] == [d2];
    ScanOne(f, mid, d2);
  }
}
