# foae — a Dafny model of the Flask-route to OpenAPI extractor

`foae` reads the Python syntax tree of a Flask application module and builds an
OpenAPI 3.0.0 document from it. Every `def` decorated with `@<app>.route("<rule>", methods=[...])`
contributes one entry to `paths`:

- the key is the rule with `<` turned into `{` and `>` into `}`;
- the value is a definition holding one operation per lower-cased HTTP method, each tagged with the function name;
- a route that adds no method to a still-empty definition gets a default `get` with a `200: Success` response;
- when a route's rule has `<name>` segments, the definition also gets a `parameters` list built from the function's type hints. With several routes, the list comes from the last route that has `<` segments, which need not be the route whose rule becomes the key.

This project models the class `Foae` in `foae/foae.py`:

- the constructor (`Openapi.New`);
- the type table `_map_type` (`TypeMap.MapType`);
- the method `parse`. It is split into:
  - the decorator loop body (`Routes.Step` and its parts);
  - the decorator loop over one function (`Routes.Scan`, `Foae.Extract`);
  - the walk over all nodes, which stores into `paths` with the last write winning (`Foae.Parse`, and the imperative `Foae.ParseLoop`).

Modules, one per file:

| file | module | contents |
|---|---|---|
| `results.dfy` | `Results` | `Option`, `Result` |
| `syntax.dfy` | `Syntax` | the parts of Python's `ast` nodes that `parse` reads |
| `text.dfy` | `Text` | `str.split`, `[1:-1]`, `str.replace`, `str.lower` on `seq<char>` |
| `type_map.dfy` | `TypeMap` | `_map_type` |
| `openapi.dfy` | `Openapi` | the document, `__init__`, the store into `paths` |
| `routes.dfy` | `Routes` | the decorator loop |
| `foae.dfy` | `Foae` | key normalisation, per-function extraction, the node walk |
| `scenarios.dfy` | `Scenarios` | two concrete `def`s worked through the model |

Behaviour the model follows because the code does it:

- **Every path parameter has type `string`.** `_map_type` compares its argument with the type objects `int`, `str`, `bool`, `list` and `dict`. `parse` passes it `param.annotation.id`, which is an identifier string such as `'int'`. That equals none of them, so every entry of a `parameters` list has type `string`, never `integer`. `_map_type` itself is declared with `t: type` and answers `integer` for `t == int` (`foae/foae.py:81-83`), so `integer` for an `int` annotation is evidently what it was written for; the call at line 63 never reaches that branch. The model follows the call as written: `TypeMap.IdentifierMapsToString`, `Routes.Hints`, `Scenarios.AnnotatedPathParameter`.
- **A path parameter without a type hint raises.** `type_hints[param]` raises `KeyError`, and it escapes `parse`. The walk raises exactly when some `def` has a route with an unannotated `<` name (`Foae.Parse`). The model returns that as `Failure(name)` / `Outcome.Raised`. The document in `Raised` is `self.spec` as far as the walk had got, since earlier stores stay.
- **A method named `parameters` is overwritten.** Methods and `parameters` share one dict, so a method whose lower-cased name is `parameters` loses its operation to the `parameters` list when that route, or a later route on the same `def`, has a `<` segment (`Foae.ParametersMethodOverwritten`).
- **Later writes win.** With several route decorators, methods accumulate and the last rule is the key (`Foae.StackedRoutes`). The `parameters` list, though, comes from the last route with `<` segments, because a route without them skips the list (the `continue` after `if not path_params`). So `@app.route("/u/<p>")` followed by `@app.route("/u")` stores a list naming `p` under the key `/u` (`Routes.ScanParameters`, `Foae.ExtractParameters`, `Foae.StaleParameters`). Two functions with the same key: the later one's definition replaces the earlier (`Foae.LaterFunctionOverwrites`).
- **An unclosed segment still names a parameter.** `part[1:-1]` drops the last character whatever it is, so a segment `<name` yields `nam` (`Routes.UnclosedPlaceholder`).
- **A `methods` value that is not a literal list, tuple or set crashes.** A value such as a variable has no `.elts`, so it raises `AttributeError` rather than being ignored. The model excludes such decorators through `Routes.WellFormed`.

## Model

| member | source | states |
|---|---|---|
| Openapi.New | foae/foae.py:7-15 | The new document has `openapi` `3.0.0`, `info` with the given title and version (default `1.0.0`), and no paths. |
| Openapi.Store | foae/foae.py:79 | Storing a definition keeps `openapi` and `info`. It adds exactly its key to `paths`, with that definition as the value, and leaves every other key's value alone. |
| Openapi.StoreOverwrites | foae/foae.py:79 | A second store under the same key replaces the first entirely. |
| Openapi.StoresCommute | foae/foae.py:79 | Stores under two different keys give the same document in either order. |
| TypeMap.MapType | foae/foae.py:81-92 | The result is always one of the five schema names. `integer`, `boolean`, `array` and `object` are each returned exactly for `int`, `bool`, `list` and `dict`. Everything else (`str` or a value that is no type object) gives `string`. |
| TypeMap.IdentifierMapsToString | foae/foae.py:63 | With an identifier string as its argument, the table answers `string`. For the identifier `int` this differs from what the `int` type gives. |
| Routes.IsRoute | foae/foae.py:29-34 | A decorator takes part in the loop exactly when it is a call, its callee's attribute is `route`, and its first argument is a string literal; every other decorator is skipped. |
| Routes.RouteTest | foae/foae.py:29-53 | From an empty definition, a decorator changes the loop state iff it passes the route test: a non-route is skipped, and a route either raises or leaves a non-empty definition. |
| Routes.AddItems | foae/foae.py:41-43 | One `methods` list adds exactly the lower-cased items as keys, each holding an operation tagged with the function name. Keys not in the list keep their values. |
| Routes.AddMethods | foae/foae.py:37-43 | Over all keywords of a decorator, the added keys are exactly the lower-cased items of the `methods` keywords. Other keywords add nothing, and untouched keys keep their values. |
| Routes.CollectMethods | foae/foae.py:37-53 | After the method loop and the emptiness test, the keys are the old keys plus the method keys. `get` is added exactly when both were empty, and then the definition is just the default `get` with its `200` response. Method keys map to their operations and other keys are unchanged. |
| Routes.CollectTwice | foae/foae.py:37-53 | After a first route that added methods, a second route's loop sees a non-empty definition. The keys are then exactly the two method sets, all holding operations, and there is no default `get`. |
| Routes.AngleNames | foae/foae.py:57 | The filter-map over the segments: at most one name per segment, and no names exactly when no segment starts with `<`. |
| Routes.AngleNamesMembers | foae/foae.py:57 | Each segment starting with `<` contributes its trimmed form, and each name comes from such a segment. |
| Routes.AngleNamesAppend | foae/foae.py:57 | The names of two concatenated segment lists are the names of the first followed by those of the second. |
| Routes.PathParams | foae/foae.py:57 | A rule without `<` has no path parameters. |
| Routes.PathParamsOfSegments | foae/foae.py:57 | A rule made by joining `/`-free segments has as path parameters the trimmed `<` segments, in order. |
| Routes.PathParamsConcat | foae/foae.py:57 | The path parameters of `x/y` are those of `x` followed by those of `y`. |
| Routes.SegmentParam | foae/foae.py:57 | A single `/`-free segment starting with `<` is one parameter: the segment without its first and last character. |
| Routes.PlaceholderSegment | foae/foae.py:57 | The segment `<name>` yields exactly `name`. |
| Routes.PlaceholderRule | foae/foae.py:57 | `base/<name>`, with no `<` in `base`, has the single path parameter `name`. |
| Routes.UnclosedPlaceholder | foae/foae.py:57 | A last segment `<name` without a closing `>` still yields a parameter, `name` minus its last character. |
| Routes.Hints | foae/foae.py:62-66 | The hint keys are exactly the names of the parameters annotated with a simple name, and every hint is `string`. |
| Routes.BuildParameters | foae/foae.py:68-73 | The list is built iff every path parameter has a hint. It then has one entry per parameter, in order, with `in: path`, `required: True` and the hinted type. Otherwise the `KeyError` names the first parameter without a hint. |
| Routes.AttachParameters | foae/foae.py:58-73 | No path parameters leave the definition alone. Otherwise it succeeds iff every name is annotated, and success sets `parameters` to the path entries. A failure names a path parameter without an annotation. |
| Routes.Step | foae/foae.py:27-73 | A decorator that is not a string-rule `route` call changes nothing. A route succeeds iff all its path parameters are annotated, and a failure is a missing hint. On success the rule becomes this route's rule, and the definition is the collected methods plus, when there are path parameters, the `parameters` list. Every key is an old key, a method key of this route, `get` or `parameters`, and every changed value is a tagged operation, the default `get` or a `parameters` list. |
| Routes.StepParameters | foae/foae.py:37-73 | After one pass, a `parameters` list is this route's list of path entries if its rule has `<` segments, and otherwise the list that was already there. |
| Routes.ScanParameters | foae/foae.py:27-73 | After the decorator loop, a `parameters` list is the list of the last route with `<` segments. If no route has `<` segments, it is the list the definition started with. |
| Routes.LastRule | foae/foae.py:26-56 | With no route decorator the result is the fallback, the loop's initial `''`; otherwise it is the rule of the last route decorator, the one no route follows. |
| Routes.Scan | foae/foae.py:25-73 | The decorator loop: with no route nothing changes, and keys are never removed. The rule is the last route's rule. The definition is empty iff no route was seen. Every route's method keys are present, and every other new key is `get` or `parameters`; every changed value is a tagged operation, the default `get` or a `parameters` list. The loop raises iff some route has a path parameter without a hint, and a raise names such a hint. |
| Text.Split | foae/foae.py:57 | `split('/')` gives at least one piece, no piece contains the separator, and joining the pieces gives the string back. |
| Text.SplitJoin | foae/foae.py:57 | Splitting the join of separator-free pieces gives back exactly those pieces. |
| Text.SplitConcat | foae/foae.py:57 | Splitting `x + sep + y` gives the pieces of `x` followed by the pieces of `y`. |
| Text.SplitPiecesFromSource | foae/foae.py:57 | Every character of every piece occurs in the split string. |
| Text.DropEnds | foae/foae.py:57 | `part[1:-1]`: for two characters or more, the first and last characters put back around the result rebuild the part. Shorter parts give the empty string. |
| Text.Replace | foae/foae.py:78 | `replace(a, b)` keeps the length, turns every `a` into `b` and keeps every other character in place. |
| Text.ReplaceRoundTrip | foae/foae.py:78 | Replacing `a` by a character `b` the string lacks is undone by replacing `b` by `a`. |
| Text.ToLower | foae/foae.py:42 | `lower()` keeps the length, lowers each character in place and leaves no upper-case ASCII letter. |
| Foae.Normalize | foae/foae.py:78 | The key has the rule's length. Each `<` becomes `{`, each `>` becomes `}`, and every other character stays, so no angle bracket remains. |
| Foae.NormalizeIdempotent | foae/foae.py:78 | Normalising a key again changes nothing. |
| Foae.NormalizeRoundTrip | foae/foae.py:78 | For a rule without braces, turning the key's braces back into angle brackets restores the rule. |
| Foae.NormalizeConcat | foae/foae.py:78 | Normalisation distributes over concatenation. |
| Foae.NormalizePlain | foae/foae.py:78 | A rule without angle brackets is its own key. |
| Foae.PlaceholderKey | foae/foae.py:78 | The key of `base/<p>` is `base/{p}`. |
| Foae.Extract | foae/foae.py:25-78 | One function writes nothing iff it has no route decorator. When it writes, the key is the last route's rule normalised and the definition is non-empty. Its keys are all drawn from the routes' methods, `get` and `parameters`, and every route's method keys are present. Only the default `get` carries a `response`. Extraction raises iff some route has an unannotated path parameter, and the raise names one. |
| Foae.ExtractParameters | foae/foae.py:25-79 | A stored `parameters` list is the path-entry list of the last route with `<` segments, whichever rule gives the key. |
| Foae.RouteWithoutMethods | foae/foae.py:45-78 | One route without `methods`: the definition is exactly the default `get`, plus, when the rule has annotated `<` segments, the `parameters` list of those names. |
| Foae.RouteWithMethods | foae/foae.py:37-56 | One route with methods and no `<` segment: the keys are exactly the lower-cased methods, each an operation tagged with the function name. There is no default `get`, and the key is the normalised rule. |
| Foae.SinglePlaceholderRoute | foae/foae.py:45-78 | One route `base/<p>` without `methods`, with `p` annotated: the key is `base/{p}`. The definition is the default `get` plus a one-entry `parameters` list whose type is `string`. |
| Foae.UnannotatedPlaceholder | foae/foae.py:62-73 | One route `base/<p>` with `p` unannotated: extraction raises `KeyError(p)`. |
| Foae.StackedRoutes | foae/foae.py:27-56 | Two routes, the first with methods: the methods of both accumulate, no default `get` is added, and the second rule gives the key. |
| Foae.StaleParameters | foae/foae.py:56-59 | Route `base/<p>` then a route with no `<` and no `parameters` method: the key is the second rule normalised, and the stored `parameters` list still names `p`. |
| Foae.ParametersMethodOverwritten | foae/foae.py:41-73 | A route whose only method is `parameters` and whose rule has annotated `<` segments stores only the `parameters` list, with no operation at all. |
| Foae.Visit | foae/foae.py:21-79 | Visiting an inert node changes nothing. A successful visit keeps the header and keeps every key. A new key is brace-normalised and is the key the `def` writes. Every key the `def` does not write keeps its value. The visit raises iff the node is a `def` with a route whose path parameters are not all annotated, and the raise comes from such a route. |
| Foae.Parse | foae/foae.py:17-79 | The walk keeps the header and never removes a key. A walk of inert nodes returns the document unchanged. The walk raises iff some `def` has a route with an unannotated path parameter, and `missing` names a path parameter of such a route. Every added key is written by some node, and a key that no node writes keeps its value, whether the walk returns or raises. |
| Foae.ParseAppend | foae/foae.py:21-79 | Walking `a + b` is walking `a`, then, if that returned, walking `b` from its result. |
| Foae.LastWriteWins | foae/foae.py:79 | After a walk that returned, a function writing `key` leaves exactly its definition there. |
| Foae.LaterFunctionOverwrites | foae/foae.py:79 | Of two functions with the same key, the later one's definition is what `paths` holds, whatever lies between, and it stays through any later nodes that do not write that key. |
| Foae.ParseKeysNormalized | foae/foae.py:78-79 | If no key of `paths` has an angle bracket before the walk, none has after it. |
| Foae.ParseFromNew | foae/foae.py:7-79 | From a new document, the walk keeps `3.0.0` and the given `info`, and every key uses braces. |
| Foae.ParseLoop | foae/foae.py:21-79 | The in-place loop over the walk computes the same outcome as `Parse`. |
| Scenarios.AnnotatedPathParameter | foae/foae.py:56-73 | `@app.route("/u/<uid>")` on `def get_user(uid: int)` writes key `/u/{uid}`. The definition has the default `get` and one path parameter `uid` of type `string`. |
| Scenarios.UnannotatedPathParameter | foae/foae.py:72 | The same function with `uid` unannotated raises `KeyError('uid')`. |

## Left out

- `export_as`: printing, file output and YAML/JSON serialisation are I/O. Its `ValueError` for an unknown extension is not modelled.
- `inspect.getsource`, `ast.parse` and `ast.walk`: these are the parser and the tree walker. The model starts from the sequence of nodes in walk order (`Syntax.Node`).
- `async def`: `ast.AsyncFunctionDef` is not a `FunctionDef`, so it is skipped like any other node (`Syntax.OtherNode`).
- Inputs on which `parse` crashes are excluded by preconditions (`Routes.WellFormed`, `Routes.Safe`, `Routes.FunctionSafe`, `Foae.NodesSafe`), not modelled as errors:
  - a decorator call whose callee is not an attribute (`decorator.func.attr`);
  - a `route` call without a positional argument (`decorator.args[0]`);
  - a `methods` keyword whose value is not a literal list, tuple or set of string literals (`.elts`, `.s`);
  - any keyword-only parameter on a route with a `<` segment, because the `type_hints` comprehension also walks `kw_defaults`, whose entries have no `annotation`.
- Foae.NodesSafe: a raise stops the walk, but the precondition still covers the nodes after it, and `Routes.FunctionSafe` likewise covers decorators after a raising route. Such inputs are excluded although the code would end them with the same `KeyError`, giving the same `Outcome.Raised`.
- Text.ToLower: lower-cases ASCII letters only; Python's Unicode case mapping is not modelled.
- Order of keys: `paths` and each definition are Dafny maps, which have no order. The Python dicts keep insertion order, with an overwritten key keeping its first position, and `json.dump` in `export_as` makes that order visible.
- Other annotation shapes (`Optional[int]`, `'int'` as a string) are treated like no annotation, as the `isinstance(param.annotation, ast.Name)` filter does. `Syntax.Param` records only a simple-name annotation.
