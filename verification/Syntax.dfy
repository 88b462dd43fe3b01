/** The programs the compiler model covers: expressions and statements with resolved names. */
module Syntax {
  import opened Bytecode

  /** Expressions below logical operators.  Local variables are registers; names of slots and other
      constants are indices of the literal table.  A name that is no variable is a slot of `this`, which
      is local variable 0; `o.name` is a slot access with a literal key. */
  datatype Expr =
    | Local(r: nat)
    | GetOuter(n: int)
    | Lit(op: Op, n: int)
    | Null
    | Index(obj: Expr, key: Expr)
    | Bin(op: Op, kind: Byte, left: Expr, right: Expr)
    | AssignLocal(x: nat, value: Expr)
    | Compound(op: Op, x: nat, value: Expr)
    | AssignOuter(n: int, value: Expr)
    | SetSlot(op: Op, obj: Expr, key: Expr, value: Expr)
    | Call(fn: Expr, args: Args)
    | Method(obj: Expr, key: Expr, args: Args)
    | Comma(first: Expr, second: Expr)

  datatype Args = NoArgs | More(arg: Expr, rest: Args)

  /** Expressions under the logical operators && and ||. */
  datatype Cond = Leaf(e: Expr) | And(l: Cond, r: Cond) | Or(l: Cond, r: Cond)

  /** Statements; loops and branches test an expression.  A block ends the scope of what it declares. */
  datatype Stmt =
    | Empty
    | Do(e: Expr)
    | Declare(e: Expr)
    | DeclareLogical(c: Cond)
    | Return(e: Expr)
    | Then(a: Stmt, b: Stmt)
    | Block(body: Stmt)
    | When(e: Expr, body: Stmt)
    | Either(e: Expr, a: Stmt, b: Stmt)
    | Loop(e: Expr, body: Stmt)
    | Repeat(body: Stmt, e: Expr)
    | Steps(e: Expr, incr: Expr, body: Stmt)
    | Leave
    | Again

  /** The number of variables behind a statement. */
  function Locals(st: Stmt, k: nat): nat {
    match st
    case Declare(_) => k + 1
    case DeclareLogical(_) => k + 1
    case Then(a, b) => Locals(b, Locals(a, k))
    case _ => k
  }
}
