/**
 `Foae.parse`: the walk over the function definitions of a module, each one's
 decorator loop, and the last-write-wins store into `paths`.
 */
module Foae {
  import opened Results
  import opened Syntax
  import opened Text
  import opened Openapi
  import opened Routes

  /** The rule as a `paths` key: `<` becomes `{`, then `>` becomes `}`. */
  function Normalize(rule: string): (key: string)
    ensures |key| == |rule|
    ensures forall i :: 0 <= i < |rule| ==>
      key[i] == (if rule[i] == '<' then '{' else if rule[i] == '>' then '}' else rule[i])
    ensures '<' !in key && '>' !in key
  {
    Replace(Replace(rule, '<', '{'), '>', '}')
  }

  /** Normalising a key again changes nothing. */
  lemma NormalizeIdempotent(rule: string)
    ensures Normalize(Normalize(rule)) == Normalize(rule)
  {
    var once := Normalize(rule);
    assert forall i :: 0 <= i < |once| ==> Normalize(once)[i] == once[i];
  }

  /** A rule written without braces is recovered from its key by turning the braces back. */
  lemma NormalizeRoundTrip(rule: string)
    requires '{' !in rule && '}' !in rule
    ensures Replace(Replace(Normalize(rule), '{', '<'), '}', '>') == rule
  {
    var back := Replace(Replace(Normalize(rule), '{', '<'), '}', '>');
    assert forall i :: 0 <= i < |rule| ==> back[i] == rule[i] by {
      forall i | 0 <= i < |rule|
        ensures back[i] == rule[i]
      {
        assert rule[i] != '{' && rule[i] != '}';
      }
    }
  }

  /** Normalisation works character by character, so it distributes over concatenation. */
  lemma NormalizeConcat(x: string, y: string)
    ensures Normalize(x + y) == Normalize(x) + Normalize(y)
  {
    var whole := Normalize(x + y);
    var parts := Normalize(x) + Normalize(y);
    assert forall i :: 0 <= i < |x + y| ==> whole[i] == parts[i] by {
      forall i | 0 <= i < |x + y|
        ensures whole[i] == parts[i]
      {
        if i < |x| {
          assert (x + y)[i] == x[i];
        } else {
          assert (x + y)[i] == y[i - |x|];
        }
      }
    }
  }

  /** What one function contributes to `paths`: nothing, or one definition under one key. */
  datatype Extracted = Skip | Write(key: string, definition: Definition)

  /**
   One function of the walk: run its decorator loop from an empty definition and
   rule `''`; skip it if the definition stays empty, else write it under the normalised rule.
   */
  function Extract(f: FunctionDef): (r: Result<Extracted, string>)
    requires FunctionSafe(f)
    ensures r.Success? ==> (r.value.Skip? <==> forall d :: d in f.decorators ==> !IsRoute(d))
    ensures (forall d :: d in f.decorators ==> !IsRoute(d)) ==> r == Success(Skip)
    ensures r.Success? && r.value.Write? ==> r.value.key == Normalize(LastRule(f.decorators, ""))
    ensures r.Success? && r.value.Write? ==> r.value.definition != map[]
    ensures r.Success? && r.value.Write? ==>
      forall d :: d in f.decorators && IsRoute(d) ==> MethodKeys(d.keywords) <= r.value.definition.Keys
    ensures r.Success? <==> forall d :: d in f.decorators ==> HintsCover(f, d)
    ensures r.Success? && r.value.Write? ==>
      r.value.definition.Keys <= RouteMethods(f.decorators) + {"get", "parameters"}
    ensures r.Success? && r.value.Write? ==>
      forall m :: m in r.value.definition ==> Generated(f, m, r.value.definition[m])
    ensures r.Success? && r.value.Write? ==> forall m :: m in r.value.definition ==>
      (r.value.definition[m].Operation? && r.value.definition[m].response.Some? ==>
        m == "get" && r.value.definition[m] == DefaultGet(f.name))
    ensures r.Failure? ==> exists d :: d in f.decorators && MissingHint(f, d, r.error)
  {
    match Scan(f, Draft(map[], ""), f.decorators)
    case Failure(missing) => Failure(missing)
    case Success(st) =>
      if st.definition == map[] then Success(Skip) else Success(Write(Normalize(st.rule), st.definition))
  }

  /** A loop that ends with a non-empty definition is written under its last rule, normalized. */
  lemma ExtractWrite(f: FunctionDef, last: Draft)
    requires FunctionSafe(f)
    requires Scan(f, Draft(map[], ""), f.decorators) == Success(last) && last.definition != map[]
    ensures Extract(f) == Success(Write(Normalize(last.rule), last.definition))
  {
  }

  /** A loop that raises makes the whole extraction raise the same `KeyError`. */
  lemma ExtractRaise(f: FunctionDef, missing: string)
    requires FunctionSafe(f)
    requires Scan(f, Draft(map[], ""), f.decorators) == Failure(missing)
    ensures Extract(f) == Failure(missing)
  {
  }

  /**
   A stored `parameters` list is that of the last route with `<` segments, even
   when a later route without them supplies the key.
   */
  lemma ExtractParameters(f: FunctionDef)
    requires FunctionSafe(f)
    requires Extract(f).Success? && Extract(f).value.Write?
    requires var def := Extract(f).value.definition; "parameters" in def && def["parameters"].Parameters?
    ensures exists j :: (LastPlaceholderAt(f.decorators, j)
      && Extract(f).value.definition["parameters"] == Parameters(PathEntries(PathParams(RuleOf(f.decorators[j])))))
  {
    var last := Scan(f, Draft(map[], ""), f.decorators).value;
    ExtractWrite(f, last);
    ScanParameters(f, Draft(map[], ""), f.decorators);
  }

  /**
   A function whose one decorator is a route without `methods`: its definition
   holds exactly the default `get` and, when the rule has `<` segments that are
   all annotated, the `parameters` list of those names.
   */
  lemma RouteWithoutMethods(f: FunctionDef, d: Decorator)
    requires f.decorators == [d] && Safe(f, d)
    requires IsRoute(d) && MethodKeys(d.keywords) == {}
    requires forall n :: n in PathParams(RuleOf(d)) ==> n in AnnotatedNames(f.args)
    ensures FunctionSafe(f)
    ensures var names := PathParams(RuleOf(d));
      Extract(f) == Success(Write(Normalize(RuleOf(d)),
        if names == [] then map["get" := DefaultGet(f.name)]
        else map["get" := DefaultGet(f.name), "parameters" := Parameters(PathEntries(names))]))
  {
    var names := PathParams(RuleOf(d));
    assert forall i :: 0 <= i < |names| ==> names[i] in AnnotatedNames(f.args) by {
      forall i | 0 <= i < |names|
        ensures names[i] in AnnotatedNames(f.args)
      {
        assert names[i] in names;
      }
    }
    var collected := CollectMethods(map[], d.keywords, f.name);
    assert collected == map["get" := DefaultGet(f.name)];
    var last := Draft(if names == [] then collected else collected["parameters" := Parameters(PathEntries(names))], RuleOf(d));
    assert Step(f, Draft(map[], ""), d) == Success(last);
    assert "get" in last.definition;
    ScanOne(f, Draft(map[], ""), d);
    SafeOne(f, d);
    ExtractWrite(f, last);
  }

  /**
   A function whose one decorator is a route with a non-empty `methods` list and
   no `<` segment: one operation per distinct lower-cased method, nothing else.
   */
  lemma RouteWithMethods(f: FunctionDef, d: Decorator)
    requires f.decorators == [d] && Safe(f, d)
    requires IsRoute(d) && MethodKeys(d.keywords) != {}
    requires PathParams(RuleOf(d)) == []
    ensures FunctionSafe(f)
    ensures Extract(f).Success? && Extract(f).value.Write?
    ensures Extract(f).value.key == Normalize(RuleOf(d))
    ensures Extract(f).value.definition.Keys == MethodKeys(d.keywords)
    ensures forall m :: m in Extract(f).value.definition ==> Extract(f).value.definition[m] == MethodOperation(f.name)
  {
    var last := Draft(CollectMethods(map[], d.keywords, f.name), RuleOf(d));
    var st := Step(f, Draft(map[], ""), d);
    assert st.Success? && st.value.rule == RuleOf(d);
    assert st.value.definition == last.definition;
    var m :| m in MethodKeys(d.keywords);
    assert m in last.definition;
    assert last.definition.Keys == MethodKeys(d.keywords);
    assert forall m :: m in last.definition ==> last.definition[m] == MethodOperation(f.name);
    ScanOne(f, Draft(map[], ""), d);
    SafeOne(f, d);
    ExtractWrite(f, last);
  }

  /**
   Any function with one route `base/<p>` and no `methods`, `p` annotated: the
   key is `base/{p}`, the definition the default `get` plus a one-entry
   `parameters` list whose type is `string` whatever the annotation says.
   */
  lemma SinglePlaceholderRoute(f: FunctionDef, d: Decorator, base: string, p: string)
    requires f.decorators == [d] && Safe(f, d)
    requires IsRoute(d) && MethodKeys(d.keywords) == {}
    requires RuleOf(d) == base + "/" + ("<" + p + ">")
    requires '<' !in base && '>' !in base && '/' !in p && '<' !in p && '>' !in p
    requires p in AnnotatedNames(f.args)
    ensures FunctionSafe(f)
    ensures Extract(f) == Success(Write(base + "/" + ("{" + p + "}"), map[
      "get" := DefaultGet(f.name),
      "parameters" := Parameters([PathParameter(p, "path", true, "string")])]))
  {
    PlaceholderRule(base, p);
    var names := PathParams(RuleOf(d));
    assert names == [p];
    assert forall n :: n in names ==> n in AnnotatedNames(f.args);
    RouteWithoutMethods(f, d);
    PathEntriesOne(p);
    PlaceholderKey(base, p);
    var entries := Parameters(PathEntries(names));
    assert Extract(f) == Success(Write(Normalize(RuleOf(d)), map["get" := DefaultGet(f.name), "parameters" := entries]));
  }

  /**
   Any function with one route `base/<p>` whose `p` has no type hint: the hint
   lookup raises `KeyError(p)`, whatever the `methods`, and nothing is extracted.
   */
  lemma UnannotatedPlaceholder(f: FunctionDef, d: Decorator, base: string, p: string)
    requires f.decorators == [d] && Safe(f, d) && IsRoute(d)
    requires RuleOf(d) == base + "/" + ("<" + p + ">")
    requires '<' !in base && '/' !in p
    requires p !in AnnotatedNames(f.args)
    ensures FunctionSafe(f)
    ensures Extract(f) == Failure(p)
  {
    PlaceholderRule(base, p);
    var names := PathParams(RuleOf(d));
    assert names == [p];
    var step := Step(f, Draft(map[], ""), d);
    assert names[0] !in AnnotatedNames(f.args);
    assert step.error in names;
    ScanOne(f, Draft(map[], ""), d);
    SafeOne(f, d);
    ExtractRaise(f, p);
  }

  /** A rule without angle brackets is its own key. */
  lemma NormalizePlain(rule: string)
    requires '<' !in rule && '>' !in rule
    ensures Normalize(rule) == rule
  {
    assert forall i :: 0 <= i < |rule| ==> Normalize(rule)[i] == rule[i];
  }

  /** The key of `base/<p>` is `base/{p}` when neither part has angle brackets of its own. */
  lemma PlaceholderKey(base: string, p: string)
    requires '<' !in base && '>' !in base && '<' !in p && '>' !in p
    ensures Normalize(base + "/" + ("<" + p + ">")) == base + "/" + ("{" + p + "}")
  {
    var rule, key := base + "/" + ("<" + p + ">"), base + "/" + ("{" + p + "}");
    assert forall i :: 0 <= i < |rule| ==> Normalize(rule)[i] == key[i] by {
      forall i | 0 <= i < |rule|
        ensures Normalize(rule)[i] == key[i]
      {
        var n := |base|;
        if i < n {
          assert rule[i] == base[i] && key[i] == base[i];
        } else if i == n {
          assert rule[i] == '/' && key[i] == '/';
        } else if i == n + 1 {
          assert rule[i] == '<' && key[i] == '{';
        } else if i < n + 2 + |p| {
          assert rule[i] == p[i - n - 2] && key[i] == p[i - n - 2];
        } else {
          assert rule[i] == '>' && key[i] == '}';
        }
      }
    }
  }

  /**
   Two route decorators, the first with `methods`, neither with a `<` segment:
   the methods of both accumulate, no default `get` is added (the definition is
   no longer empty when the second is seen), and the second rule is the key.
   */
  lemma StackedRoutes(f: FunctionDef, d1: Decorator, d2: Decorator)
    requires f.decorators == [d1, d2] && Safe(f, d1) && Safe(f, d2)
    requires IsRoute(d1) && IsRoute(d2) && MethodKeys(d1.keywords) != {}
    requires PathParams(RuleOf(d1)) == [] && PathParams(RuleOf(d2)) == []
    ensures FunctionSafe(f)
    ensures Extract(f).Success? && Extract(f).value.Write?
    ensures Extract(f).value.key == Normalize(RuleOf(d2))
    ensures Extract(f).value.definition.Keys == MethodKeys(d1.keywords) + MethodKeys(d2.keywords)
    ensures forall m :: m in Extract(f).value.definition ==> Extract(f).value.definition[m] == MethodOperation(f.name)
  {
    var first := CollectMethods(map[], d1.keywords, f.name);
    var second := CollectMethods(first, d2.keywords, f.name);
    CollectTwice(d1.keywords, d2.keywords, f.name);
    var s1 := Step(f, Draft(map[], ""), d1);
    assert s1.Success? && s1.value.rule == RuleOf(d1);
    assert s1.value.definition == first;
    var s2 := Step(f, s1.value, d2);
    assert s2.Success? && s2.value.rule == RuleOf(d2);
    assert s2.value.definition == second;
    ScanTwo(f, Draft(map[], ""), d1, d2, s1.value, s2.value);
    SafeTwo(f, d1, d2);
    ExtractWrite(f, Draft(second, RuleOf(d2)));
  }

  /**
   A route whose only method is `parameters` (any case) and whose rule has
   annotated `<` segments: the `parameters` list overwrites that operation, so
   the stored definition has no operation at all.
   */
  lemma ParametersMethodOverwritten(f: FunctionDef, d: Decorator)
    requires f.decorators == [d] && Safe(f, d)
    requires IsRoute(d) && MethodKeys(d.keywords) == {"parameters"}
    requires PathParams(RuleOf(d)) != []
    requires forall n :: n in PathParams(RuleOf(d)) ==> n in AnnotatedNames(f.args)
    ensures FunctionSafe(f)
    ensures Extract(f) == Success(Write(Normalize(RuleOf(d)),
      map["parameters" := Parameters(PathEntries(PathParams(RuleOf(d))))]))
    ensures forall m :: m in Extract(f).value.definition ==> !Extract(f).value.definition[m].Operation?
  {
    var names := PathParams(RuleOf(d));
    assert forall i :: 0 <= i < |names| ==> names[i] in AnnotatedNames(f.args) by {
      forall i | 0 <= i < |names|
        ensures names[i] in AnnotatedNames(f.args)
      {
        assert names[i] in names;
      }
    }
    var collected := CollectMethods(map[], d.keywords, f.name);
    assert collected == map["parameters" := MethodOperation(f.name)];
    var last := Draft(map["parameters" := Parameters(PathEntries(names))], RuleOf(d));
    assert collected["parameters" := Parameters(PathEntries(names))] == last.definition;
    var st := Step(f, Draft(map[], ""), d);
    assert st.Success? && st.value.rule == RuleOf(d);
    assert st.value.definition == collected["parameters" := Parameters(PathEntries(names))];
    assert forall m :: m in last.definition ==> !last.definition[m].Operation?;
    ScanOne(f, Draft(map[], ""), d);
    SafeOne(f, d);
    ExtractWrite(f, last);
  }

  /**
   Route `base/<p>` followed by a route whose rule has no `<`: the second rule is
   the key, yet the first route's `parameters` list stays in the definition, since
   the second route's pass stops before the list is rebuilt. The stored list
   names `p`, a parameter the key does not have.
   */
  lemma StaleParameters(f: FunctionDef, d1: Decorator, d2: Decorator, base: string, p: string)
    requires f.decorators == [d1, d2] && Safe(f, d1) && Safe(f, d2)
    requires IsRoute(d1) && IsRoute(d2)
    requires RuleOf(d1) == base + "/" + ("<" + p + ">") && '<' !in base && '/' !in p
    requires p in AnnotatedNames(f.args)
    requires '<' !in RuleOf(d2) && "parameters" !in MethodKeys(d2.keywords)
    ensures FunctionSafe(f)
    ensures PathParams(RuleOf(d2)) == []
    ensures Extract(f).Success? && Extract(f).value.Write?
    ensures Extract(f).value.key == Normalize(RuleOf(d2))
    ensures "parameters" in Extract(f).value.definition
    ensures Extract(f).value.definition["parameters"] == Parameters([PathParameter(p, "path", true, "string")])
  {
    PlaceholderRule(base, p);
    PathEntriesOne(p);
    var list := Parameters([PathParameter(p, "path", true, "string")]);
    var s1 := Step(f, Draft(map[], ""), d1);
    assert s1.Success?;
    assert "parameters" in s1.value.definition && s1.value.definition["parameters"] == list;
    var s2 := Step(f, s1.value, d2);
    assert s2.Success? && s2.value.rule == RuleOf(d2);
    assert s2.value.definition == CollectMethods(s1.value.definition, d2.keywords, f.name);
    assert "parameters" in s2.value.definition && s2.value.definition["parameters"] == list;
    ScanTwo(f, Draft(map[], ""), d1, d2, s1.value, s2.value);
    SafeTwo(f, d1, d2);
    ExtractWrite(f, s2.value);
  }

  /** Crash-free shapes for every function node of the walk. */
  predicate NodesSafe(nodes: seq<Node>) {
    forall n :: n in nodes && n.FunctionNode? ==> FunctionSafe(n.decl)
  }

  /** A node that cannot change the document: not a `def`, or a `def` without a route decorator. */
  predicate Inert(n: Node) {
    n.FunctionNode? ==> forall d :: d in n.decl.decorators ==> !IsRoute(d)
  }

  /** Node `n` is a `def` whose extraction stores a definition under `key`. */
  predicate Writes(n: Node, key: string)
    requires n.FunctionNode? ==> FunctionSafe(n.decl)
  {
    n.FunctionNode? && Extract(n.decl).Success? && Extract(n.decl).value.Write? && Extract(n.decl).value.key == key
  }

  /** Node `n` is a `def` with a route whose path parameters are not all annotated: visiting it raises. */
  ghost predicate Unannotated(n: Node) {
    n.FunctionNode? && exists d :: d in n.decl.decorators && !HintsCover(n.decl, d)
  }

  /** One node of the walk: non-`def` nodes are skipped, a `def` stores its definition if it has one. */
  function Visit(doc: Document, n: Node): (r: Result<Document, string>)
    requires n.FunctionNode? ==> FunctionSafe(n.decl)
    ensures Inert(n) ==> r == Success(doc)
    ensures r.Success? ==> r.value.openapi == doc.openapi && r.value.info == doc.info
    ensures r.Success? ==> doc.paths.Keys <= r.value.paths.Keys
    ensures r.Success? ==> forall k :: k in r.value.paths && k !in doc.paths ==> '<' !in k && '>' !in k
    ensures r.Success? ==> forall k :: k in doc.paths && !Writes(n, k) ==> r.value.paths[k] == doc.paths[k]
    ensures r.Success? ==> forall k :: k in r.value.paths && k !in doc.paths ==> Writes(n, k)
    ensures r.Failure? <==> Unannotated(n)
    ensures r.Failure? ==> n.FunctionNode? && exists d :: d in n.decl.decorators && MissingHint(n.decl, d, r.error)
  {
    match n
    case OtherNode => Success(doc)
    case FunctionNode(f) =>
      match Extract(f)
      case Failure(missing) => Failure(missing)
      case Success(Skip) => Success(doc)
      case Success(Write(key, definition)) => Success(Store(doc, key, definition))
  }

  /**
   How `parse` ends: it returns, or a `KeyError` for `missing` escapes. Either way
   `doc` is `self.spec` as the loop left it, since earlier stores are not undone.
   */
  datatype Outcome = Returned(doc: Document) | Raised(doc: Document, missing: string)

  /** The `for node in ast.walk(...)` loop over the walk's nodes, in walk order. */
  function Parse(doc: Document, nodes: seq<Node>): (r: Outcome)
    requires NodesSafe(nodes)
    ensures r.doc.openapi == doc.openapi && r.doc.info == doc.info
    ensures doc.paths.Keys <= r.doc.paths.Keys
    ensures (forall n :: n in nodes ==> Inert(n)) ==> r == Returned(doc)
    ensures r.Raised? <==> exists n :: n in nodes && Unannotated(n)
    ensures r.Raised? ==> exists n, d :: n in nodes && n.FunctionNode? && d in n.decl.decorators && MissingHint(n.decl, d, r.missing)
    ensures forall k :: k in r.doc.paths && k !in doc.paths ==> exists n :: n in nodes && Writes(n, k)
    ensures forall k :: k in doc.paths && (forall n :: n in nodes ==> !Writes(n, k)) ==> r.doc.paths[k] == doc.paths[k]
    decreases |nodes|
  {
    if nodes == [] then Returned(doc)
    else
      assert forall n :: n in nodes <==> n == nodes[0] || n in nodes[1..];
      match Visit(doc, nodes[0])
      case Failure(missing) => Raised(doc, missing)
      case Success(next) => Parse(next, nodes[1..])
  }

  /** Parsing a walk in two pieces is parsing the first piece and, if it returned, the second from its result. */
  lemma {:induction false} ParseAppend(doc: Document, a: seq<Node>, b: seq<Node>)
    requires NodesSafe(a) && NodesSafe(b)
    ensures NodesSafe(a + b)
    ensures Parse(doc, a + b) == (if Parse(doc, a).Returned? then Parse(Parse(doc, a).doc, b) else Parse(doc, a))
    decreases |a|
  {
    assert forall n :: n in a + b <==> n in a || n in b;
    if a == [] {
      assert a + b == b;
    } else {
      assert (a + b)[0] == a[0];
      assert (a + b)[1..] == a[1..] + b;
      assert forall n :: n in a <==> n == a[0] || n in a[1..];
      match Visit(doc, a[0])
      case Failure(_) =>
      case Success(next) => ParseAppend(next, a[1..], b);
    }
  }

  /** The function visited last decides `paths[key]`, whatever earlier functions stored there. */
  lemma LastWriteWins(doc: Document, a: seq<Node>, f: FunctionDef, key: string, definition: Definition)
    requires NodesSafe(a) && FunctionSafe(f)
    requires Parse(doc, a).Returned?
    requires Extract(f) == Success(Write(key, definition))
    ensures NodesSafe(a + [FunctionNode(f)])
    ensures Parse(doc, a + [FunctionNode(f)]) == Returned(Store(Parse(doc, a).doc, key, definition))
    ensures Parse(doc, a + [FunctionNode(f)]).doc.paths[key] == definition
  {
    ParseAppend(doc, a, [FunctionNode(f)]);
  }

  /**
   Two functions with the same key: the later one's definition is the one left
   in `paths`, whatever lies between them, and it stays there through any
   nodes after it that do not write that key.
   */
  lemma LaterFunctionOverwrites(doc: Document, f1: FunctionDef, between: seq<Node>, f2: FunctionDef,
                                after: seq<Node>, key: string, d1: Definition, d2: Definition)
    requires FunctionSafe(f1) && NodesSafe(between) && FunctionSafe(f2) && NodesSafe(after)
    requires Extract(f1) == Success(Write(key, d1)) && Extract(f2) == Success(Write(key, d2))
    requires Parse(Store(doc, key, d1), between).Returned?
    requires forall n :: n in after ==> !Writes(n, key)
    ensures NodesSafe([FunctionNode(f1)] + between + [FunctionNode(f2)] + after)
    ensures Parse(doc, [FunctionNode(f1)] + between + [FunctionNode(f2)]).Returned?
    ensures key in Parse(doc, [FunctionNode(f1)] + between + [FunctionNode(f2)] + after).doc.paths
    ensures Parse(doc, [FunctionNode(f1)] + between + [FunctionNode(f2)] + after).doc.paths[key] == d2
  {
    var first := [FunctionNode(f1)];
    assert NodesSafe(first);
    ParseAppend(doc, first, between);
    LastWriteWins(doc, first + between, f2, key, d2);
    var upTo := first + between + [FunctionNode(f2)];
    var mid := Parse(doc, upTo).doc;
    assert key in mid.paths && mid.paths[key] == d2;
    ParseAppend(doc, upTo, after);
    assert Parse(doc, upTo + after).doc == Parse(mid, after).doc;
  }

  /** Every key `parse` adds is brace-normalised: if `paths` starts without `<` or `>` in its keys, it stays so. */
  lemma {:induction false} ParseKeysNormalized(doc: Document, nodes: seq<Node>)
    requires NodesSafe(nodes)
    requires forall k :: k in doc.paths ==> '<' !in k && '>' !in k
    ensures forall k :: k in Parse(doc, nodes).doc.paths ==> '<' !in k && '>' !in k
    decreases |nodes|
  {
    if nodes != [] {
      assert forall n :: n in nodes <==> n == nodes[0] || n in nodes[1..];
      match Visit(doc, nodes[0])
      case Failure(_) =>
      case Success(next) => ParseKeysNormalized(next, nodes[1..]);
    }
  }

  /** `Foae(title, version).parse(...)`: the header stays as built, and every key uses braces. */
  lemma ParseFromNew(title: string, version: string, nodes: seq<Node>)
    requires NodesSafe(nodes)
    ensures Parse(New(title, version), nodes).doc.openapi == "3.0.0"
    ensures Parse(New(title, version), nodes).doc.info == Info(title, version)
    ensures forall k :: k in Parse(New(title, version), nodes).doc.paths ==> '<' !in k && '>' !in k
  {
    ParseKeysNormalized(New(title, version), nodes);
  }

  /** The loop as Python runs it, mutating one document in place; it agrees with `Parse`. */
  method ParseLoop(doc: Document, nodes: seq<Node>) returns (r: Outcome)
    requires NodesSafe(nodes)
    ensures r == Parse(doc, nodes)
  {
    var spec := doc;
    var i := 0;
    while i < |nodes|
      invariant 0 <= i <= |nodes|
      invariant NodesSafe(nodes[i..])
      invariant Parse(doc, nodes) == Parse(spec, nodes[i..])
    {
      assert nodes[i..][1..] == nodes[i + 1..];
      assert nodes[i] in nodes[i..];
      var visited := Visit(spec, nodes[i]);
      if visited.Failure? {
        return Raised(spec, visited.error);
      }
      spec := visited.value;
      i := i + 1;
    }
    return Returned(spec);
  }
}
