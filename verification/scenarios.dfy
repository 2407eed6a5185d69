/** Two concrete declarations and what the model extracts from them. */
module Scenarios {
  import opened Results
  import opened Syntax
  import opened Text
  import opened Openapi
  import opened Routes
  import opened Foae

  /** `@app.route(rule, methods=[...])`, or without `methods` when the list is `None`. */
  function RouteCall(rule: string, methods: Option<seq<string>>): Decorator {
    Call(Some("route"), Some(StrLit(rule)),
      if methods.Some? then [Keyword(Some("methods"), StrList(methods.value))] else [])
  }

  /**
   `@app.route("/u/<uid>")` on `def get_user(uid: int)`: the key uses braces, the
   default `get` is written, and the parameter's type is `string`, because the
   table is consulted with the identifier `'int'` rather than the type `int`.
   */
  lemma AnnotatedPathParameter(f: FunctionDef, d: Decorator)
    requires d == RouteCall("/u/<uid>", None)
    requires f == FunctionDef("get_user", [d], [Param("uid", Some("int"))], [])
    ensures FunctionSafe(f)
    ensures Extract(f) == Success(Write("/u/{uid}", map[
      "get" := DefaultGet("get_user"),
      "parameters" := Parameters([PathParameter("uid", "path", true, "string")])]))
  {
    assert "/u/<uid>" == "/u" + "/" + ("<" + "uid" + ">");
    assert "/u" + "/" + ("{" + "uid" + "}") == "/u/{uid}";
    assert "uid" in AnnotatedNames(f.args);
    assert MethodKeys(d.keywords) == {};
    SinglePlaceholderRoute(f, d, "/u", "uid");
  }

  /** The same function with `uid` left unannotated: the hint lookup raises `KeyError('uid')`. */
  lemma UnannotatedPathParameter(f: FunctionDef, d: Decorator)
    requires d == RouteCall("/u/<uid>", None)
    requires f == FunctionDef("get_user", [d], [Param("uid", None)], [])
    ensures FunctionSafe(f)
    ensures Extract(f) == Failure("uid")
  {
    assert "/u/<uid>" == "/u" + "/" + ("<" + "uid" + ">");
    assert "uid" !in AnnotatedNames(f.args);
    UnannotatedPlaceholder(f, d, "/u", "uid");
  }
}
