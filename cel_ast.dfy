/**
 * The part of the CEL expression tree that the sort_by macro reads and
 * builds: identifiers, literals, list literals, field selections, calls and
 * comprehensions (the fold node every CEL macro expands to).
 */
module CelAst {
  import opened CelValues

  datatype Expr =
    | Ident(name: string)
    | Literal(value: Value)
    | CreateList(elements: seq<Expr>)
    | Select(operand: Expr, field: string)
    | Call(fn: string, args: seq<Expr>)
    | Comprehension(
        iterRange: Expr,
        iterVar: string,
        accuVar: string,
        accuInit: Expr,
        loopCondition: Expr,
        loopStep: Expr,
        result: Expr)

  /** The accumulator variable of macro-generated comprehensions. */
  const AccumulatorName := "__result__"

  /** The function name of the `+` operator. */
  const AddOperator := "_+_"

  /** Whether the name occurs in e, as an identifier or as a comprehension variable. */
  predicate Mentions(e: Expr, n: string)
  {
    match e
    case Ident(m) => m == n
    case Literal(_) => false
    case CreateList(es) => exists i :: 0 <= i < |es| && Mentions(es[i], n)
    case Select(op, _) => Mentions(op, n)
    case Call(_, args) => exists i :: 0 <= i < |args| && Mentions(args[i], n)
    case Comprehension(r, iv, av, init, cond, step, res) =>
      iv == n || av == n || Mentions(r, n) || Mentions(init, n) ||
      Mentions(cond, n) || Mentions(step, n) || Mentions(res, n)
  }

  /** Node count, the measure that the evaluator's recursion decreases. */
  function Size(e: Expr): (n: nat)
    ensures n >= 1
  {
    match e
    case Ident(_) => 1
    case Literal(_) => 1
    case CreateList(es) => 1 + SizeAll(es)
    case Select(op, _) => 1 + Size(op)
    case Call(_, args) => 1 + SizeAll(args)
    case Comprehension(r, _, _, init, cond, step, res) =>
      1 + Size(r) + Size(init) + Size(cond) + Size(step) + Size(res)
  }

  function SizeAll(es: seq<Expr>): (n: nat)
    ensures es != [] ==> n > SizeAll(es[1..]) && n >= Size(es[0])
  {
    if es == [] then 0 else Size(es[0]) + SizeAll(es[1..])
  }
}
