/** What expressions and statements mean, by recursion on the program: values, variables and the
    world, without registers, instructions or jumps. */
module Meaning {
  import opened Common
  import opened Bytecode
  import opened Codegen
  import opened Syntax

  /** What an operand is until its operator runs: a value, or a variable, which is read only then. */
  datatype Place<V> = Held(v: V) | Var(x: nat)

  datatype Ans<!V, !W> = Got(p: Place<V>, s: State<V, W>) | Fails(h: Halt<V, W>)

  datatype Vals<!V, !W> = All(vs: seq<V>, s: State<V, W>) | Stops(h: Halt<V, W>)

  function Val<V, W>(p: Place<V>, s: State<V, W>): V {
    match p
    case Held(v) => v
    case Var(x) => s.regs(x)
  }

  predicate IsThis<V>(p: Place<V>) { p.Var? && p.x == 0 }

  function Answer<V, W>(o: Out<V, W>, s: State<V, W>): Ans<V, W> {
    match o
    case Ok(w, v) => Got(Held(v), State(s.regs, w))
    case Err(w, e) => Fails(Thrown(e, w, s.regs))
  }

  function Literal<V, W>(env: Env<V, W>, op: Op, n: int): V {
    match op
    case LOADINT => env.ofInt(n)
    case LOADFLOAT => env.ofFloat(n)
    case LOADBOOL => env.ofBool(if n != 0 then 1 else 0)
    case _ => env.lit(n)
  }

  /** A binary operator on its left and its right value.  The value of a modulo that fails is not defined. */
  function Apply<V, W>(env: Env<V, W>, op: Op, kind: Byte, s: State<V, W>, left: V, right: V): Ans<V, W> {
    match op
    case EQ => Got(Held(env.ofBool(if env.eq(left, right) then 1 else 0)), s)
    case NE => Got(Held(env.ofBool(if env.eq(left, right) then 0 else 1)), s)
    case CMP => Answer(env.cmp(kind, s.w, left, right), s)
    case BITW => Answer(env.arith(BITW, kind, s.w, left, right), s)
    case MOD =>
      (match env.arith(MOD, 0, s.w, left, right)
       case Ok(w, v) => Got(Held(v), State(s.regs, w))
       case Err(w, _) => Fails(Slipped(w)))
    case _ => Answer(env.arith(op, 0, s.w, left, right), s)
  }

  /** `x op= v`.  A modulo that fails leaves x alone. */
  function Update<V, W>(env: Env<V, W>, op: Op, x: nat, s: State<V, W>, v: V): Ans<V, W> {
    match env.arith(op, 0, s.w, s.regs(x), v)
    case Ok(w, r) => Got(Var(x), State(Upd(s.regs, x, r), w))
    case Err(w, e) =>
      if op != MOD then Fails(Thrown(e, w, s.regs))
      else if env.watch then Fails(Slipped(w))
      else Got(Var(x), State(s.regs, w))
  }

  /** A slot takes `v`, which is also the value of the assignment. */
  function StoreSlot<V, W>(env: Env<V, W>, op: Op, s: State<V, W>, o: V, isThis: bool, key: V, v: V): Ans<V, W> {
    match if op == SET then env.setSlot(s.w, o, key, v, isThis) else env.newSlot(s.w, o, key, v)
    case Ok(w, _) => Got(Held(v), State(s.regs, w))
    case Err(w, e) => Fails(Thrown(e, w, s.regs))
  }

  function Invoke<V, W>(env: Env<V, W>, f: V, args: Vals<V, W>): Ans<V, W> {
    match args
    case Stops(h) => Fails(h)
    case All(vs, s) => Answer(env.call(s.w, f, vs), s)
  }

  /** The value of an expression and the state it leaves.  Operands are evaluated from left to right; one that
      is a variable is looked at when its operator runs, after the operands behind it. */
  function Eval<V, W>(env: Env<V, W>, e: Expr, s: State<V, W>): Ans<V, W>
    decreases e
  {
    match e
    case Local(r) => Got(Var(r), s)
    case GetOuter(n) => Got(Held(env.getouter(s.w, n)), s)
    case Lit(op, n) => Got(Held(Literal(env, op, n)), s)
    case Null => Got(Held(env.nil), s)
    case Index(o, key) =>
      (match Eval(env, o, s)
       case Fails(h) => Fails(h)
       case Got(p, s1) =>
         match Eval(env, key, s1)
         case Fails(h) => Fails(h)
         case Got(q, s2) => Answer(env.getSlot(s2.w, Val(p, s2), Val(q, s2), IsThis(p)), s2))
    case Bin(op, kind, l, r) =>
      (match Eval(env, l, s)
       case Fails(h) => Fails(h)
       case Got(p, s1) =>
         match Eval(env, r, s1)
         case Fails(h) => Fails(h)
         case Got(q, s2) => Apply(env, op, kind, s2, Val(p, s2), Val(q, s2)))
    case AssignLocal(x, v) =>
      (match Eval(env, v, s)
       case Fails(h) => Fails(h)
       case Got(p, s1) => Got(Var(x), State(Upd(s1.regs, x, Val(p, s1)), s1.w)))
    case Compound(op, x, v) =>
      (match Eval(env, v, s)
       case Fails(h) => Fails(h)
       case Got(p, s1) => Update(env, op, x, s1, Val(p, s1)))
    case AssignOuter(n, v) =>
      (match Eval(env, v, s)
       case Fails(h) => Fails(h)
       case Got(p, s1) => Got(Held(Val(p, s1)), State(s1.regs, env.setouter(s1.w, n, Val(p, s1)))))
    case SetSlot(op, o, key, v) =>
      (match Eval(env, o, s)
       case Fails(h) => Fails(h)
       case Got(p, s1) =>
         match Eval(env, key, s1)
         case Fails(h) => Fails(h)
         case Got(q, s2) =>
           match Eval(env, v, s2)
           case Fails(h) => Fails(h)
           case Got(u, s3) => StoreSlot(env, op, s3, Val(p, s3), IsThis(p), Val(q, s3), Val(u, s3)))
    case Call(f, args) =>
      // `this` is the caller's, the callee is looked at when the arguments are there
      (match Eval(env, f, s)
       case Fails(h) => Fails(h)
       case Got(p, s1) =>
         var vals := EvalArgs(env, args, [s1.regs(0)], s1);
         Invoke(env, if vals.All? then Val(p, vals.s) else env.nil, vals))
    case Method(o, key, args) =>
      (match Eval(env, o, s)
       case Fails(h) => Fails(h)
       case Got(p, s1) =>
         match Eval(env, key, s1)
         case Fails(h) => Fails(h)
         case Got(q, s2) =>
           match env.getSlot(s2.w, Val(p, s2), Val(q, s2), IsThis(p))
           case Err(w, e) => Fails(Thrown(e, w, s2.regs))
           case Ok(w, f) => Invoke(env, f, EvalArgs(env, args, [Val(p, s2)], State(s2.regs, w))))
    case Comma(a, b) =>
      (match Eval(env, a, s)
       case Fails(h) => Fails(h)
       case Got(_, s1) => Eval(env, b, s1))
  }

  /** Arguments are copied one by one, behind those in `done`. */
  function EvalArgs<V, W>(env: Env<V, W>, args: Args, done: seq<V>, s: State<V, W>): Vals<V, W>
    decreases args
  {
    match args
    case NoArgs => All(done, s)
    case More(a, rest) =>
      match Eval(env, a, s)
      case Fails(h) => Stops(h)
      case Got(p, s1) => EvalArgs(env, rest, done + [Val(p, s1)], s1)
  }

  // ----- logical operators -----

  /** The value of a last operand is looked at as soon as it is there. */
  function Fetched<V, W>(a: Ans<V, W>): Ans<V, W> {
    match a
    case Fails(h) => a
    case Got(p, s) => Got(Held(Val(p, s)), s)
  }

  /** `l && r` is the value of l where that is false, `l || r` where it is not; else it is the value of r,
      which is evaluated only then. */
  function Value<V, W>(env: Env<V, W>, c: Cond, s: State<V, W>): Ans<V, W> {
    match c
    case Leaf(e) => Eval(env, e, s)
    case And(l, r) =>
      (match Value(env, l, s)
       case Fails(h) => Fails(h)
       case Got(p, s1) => if env.isFalse(Val(p, s1)) then Got(Held(Val(p, s1)), s1) else Fetched(Value(env, r, s1)))
    case Or(l, r) =>
      (match Value(env, l, s)
       case Fails(h) => Fails(h)
       case Got(p, s1) => if env.isFalse(Val(p, s1)) then Fetched(Value(env, r, s1)) else Got(Held(Val(p, s1)), s1))
  }

  // ----- statements -----

  /** Whether a condition holds. */
  function Holds<V, W>(env: Env<V, W>, e: Expr, s: State<V, W>): Verdict<V, W> {
    match Eval(env, e, s)
    case Fails(h) => Other(Ended(h))
    case Got(p, s1) => if env.isFalse(Val(p, s1)) then No(s1) else Yes(s1)
  }

  /** A body that falls through or continues goes on with the turn, one that breaks leaves the loop. */
  function Turn<V, W>(o: Outcome<V, W>): Verdict<V, W> {
    match o
    case Fell(s) => Yes(s)
    case Continued(s) => Yes(s)
    case Broke(s) => No(s)
    case _ => Other(o)
  }

  /** The meaning of a statement where k variables are declared, with at most `fuel` turns of each loop. */
  function Mean<V, W>(env: Env<V, W>, st: Stmt, k: nat, s: State<V, W>, fuel: nat): Outcome<V, W>
    decreases fuel, st
  {
    match st
    case Empty => Fell(s)
    case Do(e) =>
      (match Eval(env, e, s)
       case Fails(h) => Ended(h)
       case Got(_, s1) => Fell(s1))
    case Declare(e) =>
      (match Eval(env, e, s)
       case Fails(h) => Ended(h)
       case Got(p, s1) => Fell(State(Upd(s1.regs, k, Val(p, s1)), s1.w)))
    case DeclareLogical(c) =>
      (match Value(env, c, s)
       case Fails(h) => Ended(h)
       case Got(p, s1) => Fell(State(Upd(s1.regs, k, Val(p, s1)), s1.w)))
    case Return(e) =>
      (match Eval(env, e, s)
       case Fails(h) => Ended(h)
       case Got(p, s1) => Ended(Returned(Val(p, s1), env.leave(s1.w))))
    case Then(a, b) =>
      var o := Mean(env, a, k, s, fuel);
      if o.Fell? then Mean(env, b, Locals(a, k), o.s, fuel) else o
    case Block(body) => Mean(env, body, k, s, fuel)
    case When(e, body) =>
      (match Holds(env, e, s)
       case Other(o) => o
       case No(s1) => Fell(s1)
       case Yes(s1) => Mean(env, body, k, s1, fuel))
    case Either(e, a, b) =>
      (match Holds(env, e, s)
       case Other(o) => o
       case Yes(s1) => Mean(env, a, k, s1, fuel)
       case No(s1) => Mean(env, b, k, s1, fuel))
    case Loop(e, body) =>
      if fuel == 0 then Timeout
      else
        (match Holds(env, e, s)
         case Other(o) => o
         case No(s1) => Fell(s1)
         case Yes(s1) =>
           match Turn(Mean(env, body, k, s1, fuel))
           case Other(o) => o
           case No(s2) => Fell(s2)
           case Yes(s2) => Mean(env, st, k, s2, fuel - 1))
    case Repeat(body, e) =>
      if fuel == 0 then Timeout
      else
        (match Turn(Mean(env, body, k, s, fuel))
         case Other(o) => o
         case No(s1) => Fell(s1)
         case Yes(s1) =>
           match Holds(env, e, s1)
           case Other(o) => o
           case No(s2) => Fell(s2)
           case Yes(s2) => Mean(env, st, k, s2, fuel - 1))
    case Steps(e, incr, body) =>
      if fuel == 0 then Timeout
      else
        (match Holds(env, e, s)
         case Other(o) => o
         case No(s1) => Fell(s1)
         case Yes(s1) =>
           match Turn(Mean(env, body, k, s1, fuel))
           case Other(o) => o
           case No(s2) => Fell(s2)
           case Yes(s2) =>
             match Eval(env, incr, s2)
             case Fails(h) => Ended(h)
             case Got(_, s3) => Mean(env, st, k, s3, fuel - 1))
    case Leave => Broke(s)
    case Again => Continued(s)
  }

  // ----- when a variable is read -----

  /** Somewhere in the expression, variable x is assigned. */
  predicate Assigns(e: Expr, x: nat)
    decreases e
  {
    match e
    case AssignLocal(y, v) => y == x || Assigns(v, x)
    case Compound(_, y, v) => y == x || Assigns(v, x)
    case AssignOuter(_, v) => Assigns(v, x)
    case Index(o, key) => Assigns(o, x) || Assigns(key, x)
    case Bin(_, _, l, r) => Assigns(l, x) || Assigns(r, x)
    case SetSlot(_, o, key, v) => Assigns(o, x) || Assigns(key, x) || Assigns(v, x)
    case Call(f, args) => Assigns(f, x) || ArgsAssign(args, x)
    case Method(o, key, args) => Assigns(o, x) || Assigns(key, x) || ArgsAssign(args, x)
    case Comma(a, b) => Assigns(a, x) || Assigns(b, x)
    case _ => false
  }

  predicate ArgsAssign(args: Args, x: nat)
    decreases args
  {
    args.More? && (Assigns(args.arg, x) || ArgsAssign(args.rest, x))
  }

  /** Only an assignment to it changes a variable. */
  lemma {:induction false} VariableKept<V, W>(env: Env<V, W>, e: Expr, s: State<V, W>, x: nat)
    requires !Assigns(e, x) && Eval(env, e, s).Got?
    ensures Eval(env, e, s).s.regs(x) == s.regs(x)
    decreases e
  {
    match e
    case Local(_) =>
    case GetOuter(_) =>
    case Lit(_, _) =>
    case Null =>
    case Index(o, key) => VariableKept(env, o, s, x); VariableKept(env, key, Eval(env, o, s).s, x);
    case Bin(_, _, l, r) => VariableKept(env, l, s, x); VariableKept(env, r, Eval(env, l, s).s, x);
    case AssignLocal(_, v) => VariableKept(env, v, s, x);
    case Compound(_, _, v) => VariableKept(env, v, s, x);
    case AssignOuter(_, v) => VariableKept(env, v, s, x);
    case SetSlot(_, o, key, v) =>
      VariableKept(env, o, s, x);
      var s1 := Eval(env, o, s).s;
      VariableKept(env, key, s1, x);
      VariableKept(env, v, Eval(env, key, s1).s, x);
    case Call(f, args) =>
      VariableKept(env, f, s, x);
      var s1 := Eval(env, f, s).s;
      ArgsKept(env, args, [s1.regs(0)], s1, x);
    case Method(o, key, args) =>
      VariableKept(env, o, s, x);
      var a := Eval(env, o, s);
      VariableKept(env, key, a.s, x);
      var b := Eval(env, key, a.s);
      var f := env.getSlot(b.s.w, Val(a.p, b.s), Val(b.p, b.s), IsThis(a.p));
      ArgsKept(env, args, [Val(a.p, b.s)], State(b.s.regs, f.w), x);
    case Comma(a, b) => VariableKept(env, a, s, x); VariableKept(env, b, Eval(env, a, s).s, x);
  }

  lemma {:induction false} ArgsKept<V, W>(env: Env<V, W>, args: Args, done: seq<V>, s: State<V, W>, x: nat)
    requires !ArgsAssign(args, x) && EvalArgs(env, args, done, s).All?
    ensures EvalArgs(env, args, done, s).s.regs(x) == s.regs(x)
    decreases args
  {
    if args.More? {
      VariableKept(env, args.arg, s, x);
      var a := Eval(env, args.arg, s);
      ArgsKept(env, args.rest, done + [Val(a.p, a.s)], a.s, x);
    }
  }

  /** The left operand `x` has the value from before the right operand if that does not assign it... */
  lemma OperandInOrder<V, W>(env: Env<V, W>, op: Op, kind: Byte, x: nat, r: Expr, s: State<V, W>)
    requires !Assigns(r, x) && Eval(env, r, s).Got?
    ensures var b := Eval(env, r, s);
      Eval(env, Bin(op, kind, Local(x), r), s) == Apply(env, op, kind, b.s, s.regs(x), Val(b.p, b.s))
  {
    VariableKept(env, r, s, x);
  }

  /** ... and the new one if it does: in `x + (x = v)` both operands are v. */
  lemma OperandLate<V, W>(env: Env<V, W>, op: Op, kind: Byte, x: nat, v: Expr, s: State<V, W>)
    requires Eval(env, v, s).Got?
    ensures var a := Eval(env, v, s);
      var w := Val(a.p, a.s);
      Eval(env, Bin(op, kind, Local(x), AssignLocal(x, v)), s) == Apply(env, op, kind, State(Upd(a.s.regs, x, w), a.s.w), w, w)
  {
  }
}
