/**
 The already-parsed syntax the extractor reads. Only the fields of Python's `ast`
 nodes that `Foae.parse` looks at are kept; everything else is folded into the
 `Other…` alternatives.
 */
module Syntax {
  import opened Results

  /** The first positional argument of a decorator call: a string literal or anything else. */
  datatype Expr = StrLit(s: string) | OtherExpr

  /**
   The value of a keyword argument: a literal list, tuple or set of string
   literals (each has `.elts`), or anything else. A set's iteration order is not
   kept; it does not matter, since every item writes the same operation.
   */
  datatype KeywordValue = StrList(items: seq<string>) | OtherValue

  /** A keyword argument; `arg` is `None` for a `**kwargs` splat. */
  datatype Keyword = Keyword(arg: Option<string>, value: KeywordValue)

  /**
   One entry of a decorator list. A `Call` records the attribute name of its callee
   (`None` when the callee is not an attribute access, e.g. a bare name), its first
   positional argument (`None` when it has none) and its keyword arguments.
   */
  datatype Decorator =
    | Call(attr: Option<string>, firstArg: Option<Expr>, keywords: seq<Keyword>)
    | NotCall

  /** A parameter; `annotation` holds the identifier when the annotation is a simple name. */
  datatype Param = Param(name: string, annotation: Option<string>)

  /**
   A `def` statement: its name, its decorators, `args` (the ordinary parameters,
   `node.args.args`) and `kwOnlyArgs` (the keyword-only ones). Positional-only
   parameters, `*args` and `**kwargs` are not recorded: the `type_hints`
   comprehension never reads them, so a path parameter declared only there has
   no type hint.
   */
  datatype FunctionDef = FunctionDef(
    name: string,
    decorators: seq<Decorator>,
    args: seq<Param>,
    kwOnlyArgs: seq<Param>)

  /** A node yielded by the tree walk: a `def` statement or any other node. */
  datatype Node = FunctionNode(decl: FunctionDef) | OtherNode
}
