/** The concrete-syntax-tree vocabulary the rules work on: a small tagged-variant
    stand-in for the libcst node classes the rules match and rebuild, the source
    positions the metadata provider reports, and the change records rules append. */
module Syntax {

  datatype Option<+T> = None | Some(value: T)

  /** A Python identifier. libcst refuses to build a `Name` with an empty value. */
  type Identifier = s: string | |s| > 0 witness "_"

  /** The lines a node spans in the ORIGINAL tree, as the position metadata
      provider reports them (columns are not used by any modelled rule). */
  datatype Position = Position(startLine: int, endLine: int)

  datatype CompOp =
    | Equal | NotEqual | LessThan | LessThanEqual | GreaterThan | GreaterThanEqual
    | In | NotIn | Is | IsNot

  datatype UnaryOp = Not | Minus | Plus | BitInvert

  /** Expressions. `SimpleString` holds the string's value with its quotes removed
      (what `clean_simplestring` returns); a `Dict` lists its keys and values
      interleaved, in source order; `Call` carries its own position. */
  datatype Expr =
    | Name(id: Identifier)
    | SimpleString(text: string)
    | Integer(digits: string)
    | Attribute(value: Expr, attr: Identifier)
    | Call(func: Expr, args: seq<Arg>, pos: Position)
    | Subscript(value: Expr, index: Expr)
    | List(elements: seq<Expr>)
    | Tuple(elements: seq<Expr>)
    | Dict(elements: seq<Expr>)
    | Comparison(left: Expr, comparisons: seq<ComparisonTarget>)
    | UnaryOperation(operator: UnaryOp, expression: Expr)

  /** A call argument; `keyword` is `None` for a positional argument. */
  datatype Arg = Arg(keyword: Option<Identifier>, value: Expr)

  datatype ComparisonTarget = ComparisonTarget(operator: CompOp, comparator: Expr)

  /** Statements. `Source` is a statement produced by `cst.parse_statement` from
      the text it holds; an `elif` is an `If` inside `orelse`. `Compound` is
      any other compound statement (`def`, `class`, `with`, `for`, `while`,
      `try`): the expressions of its header (decorators, default values, the
      iterated value, the context managers) and its nested statements in source
      order, an `else`, `except` or `finally` block after the main block. */
  datatype Stmt =
    | ExprStmt(expr: Expr)
    | Assign(targets: seq<Expr>, value: Expr, pos: Position)
    | If(test: Expr, body: seq<Stmt>, orelse: seq<Stmt>, pos: Position)
    | Compound(header: seq<Expr>, nested: seq<Stmt>, pos: Position)
    | Source(text: string)
    | Pass

  datatype Module = Module(body: seq<Stmt>, pos: Position)

  /** A change's line: most rules record an int, the process sandbox a string. */
  datatype LineRef = LineNumber(n: int) | LineText(text: string)

  /** One applied edit, as appended to a file's change list. */
  datatype Change = Change(line: LineRef, description: string)
}
