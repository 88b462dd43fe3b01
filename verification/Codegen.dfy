/** Branch and loop code generation: structured code is laid out as one
    instruction sequence with relative jumps, through the peephole optimizer.
    `Gen` is the layout, `Ev` the meaning of the structured source. */
module Codegen {
  import opened Bytecode
  import opened Peephole

  /** Structured code.  The straight-line parts are the acts of the expression compiler; a
      condition is a straight-line test whose value is in register r, preceded by `pre` for
      conditions that contain logical operators.
      Loops carry the number n of registers that hold variables at the loop head. */
  datatype Code =
    | Nil
    | Line(items: seq<Item>)
    | Seq(first: Code, second: Code)
    | If(test: seq<Item>, r: Byte, thn: Code)
    | IfElse(test: seq<Item>, r: Byte, thn: Code, els: Code)
    | Logic(isAnd: bool, trg: Byte, first_exp: Byte, rest: Code)
    | While(n: nat, pre: Code, test: seq<Item>, r: Byte, body: Code)
    | DoWhile(n: nat, body: Code, pre: Code, test: seq<Item>, r: Byte)
    | For(n: nat, locals: set<int>, pre: Code, test: seq<Item>, r: Byte, incr: seq<Item>, body: Code)
    | Forever(n: nat, locals: set<int>, incr: seq<Item>, body: Code)
    | Break
    | Continue

    // ----- layout -----

  function TestItems(test: seq<Item>, r: Byte): seq<Item> {
    test + [Emit(Instr(JZ, r, 0, 0, 0), {}, 0)]
  }

  function TestCode(test: seq<Item>, r: Byte, opt: bool, parent: bool): (code: seq<Instr>)
    ensures code != []
  {
    var items := TestItems(test, r);
    assert items[..|items| - 1] == test;
    Fuse(items, opt, parent).code
  }

  function Patch(code: seq<Instr>, offset: int): (r: seq<Instr>)
    requires code != []
    ensures |r| == |code|
  {
    ReplaceLast(code, Last(code).(a1 := offset))
  }

  function ReEmit(code: seq<Instr>, locals: set<int>): (r: seq<Item>)
    ensures |r| == |code|
  {
    seq(|code|, i requires 0 <= i < |code| => Emit(code[i], locals, 0))
  }

  /** The increment of a for loop is emitted once, taken away, and emitted again after the body. */
  function IncrCode(incr: seq<Item>, locals: set<int>, parent: bool): seq<Instr> {
    Fuse(ReEmit(Fuse(incr, false, parent).code, locals), false, parent).code
  }

  function Jump(offset: int): Instr { Instr(JMP, 0, offset, 0, 0) }

  /** A position of code under construction: an instruction, or the jump of a break or continue
      whose target is not known before the enclosing loop ends. */
  datatype Cell = Ready(i: Instr) | BreakHole | ContinueHole

  function Cells(code: seq<Instr>): (r: seq<Cell>)
    ensures |r| == |code|
  {
    seq(|code|, i requires 0 <= i < |code| => Ready(code[i]))
  }

  /** Resolves the holes of a loop body: a break goes to just after position brk and a continue to
      just after position cont, both counted from the start of the body. */
  function Close(body: seq<Cell>, brk: int, cont: int): (r: seq<Cell>)
    ensures |r| == |body|
  {
    seq(|body|, i requires 0 <= i < |body| =>
      match body[i]
      case Ready(_) => body[i]
      case BreakHole => Ready(Jump(brk - i))
      case ContinueHole => Ready(Jump(cont - i)))
  }

  function LayIf(T: seq<Instr>, thn: seq<Cell>): (code: seq<Cell>)
    requires T != []
  {
    Cells(Patch(T, |thn|)) + thn
  }

  function LayIfElse(T: seq<Instr>, thn: seq<Cell>, els: seq<Cell>): (code: seq<Cell>)
    requires T != []
  {
    Cells(Patch(T, |thn| + 1)) + (thn + ([Ready(Jump(|els|))] + els))
  }

  function LayLogic(isAnd: bool, trg: Byte, first: Byte, rest: seq<Cell>): seq<Cell> {
    [Ready(Instr(if isAnd then AND else OR, trg, |rest|, first, 0))] + rest
  }

  /** A continue goes back to the test, a break past the closing jump. */
  function LayWhile(pre: seq<Cell>, T: seq<Instr>, body: seq<Cell>): seq<Cell>
    requires T != []
  {
    pre + (Cells(Patch(T, |body| + 1))
           + (Close(body, |body|, -1 - |pre| - |T|) + [Ready(Jump(-1 - |pre| - |T| - |body|))]))
  }

  /** A continue goes on to the test. */
  function LayDoWhile(body: seq<Cell>, pre: seq<Cell>, T: seq<Instr>): seq<Cell>
    requires T != []
  {
    Close(body, |body| + |pre| + |T|, |body| - 1)
    + (pre + (Cells(Patch(T, 1)) + [Ready(Jump(-1 - |pre| - |T| - |body|))]))
  }

  /** A continue goes on to the increment. */
  function LayForever(body: seq<Cell>, I: seq<Instr>, head: nat): seq<Cell> {
    Close(body, |body| + |I|, |body| - 1) + (Cells(I) + [Ready(Jump(-1 - head - |body| - |I|))])
  }

  /** The test is patched only when it is not the first instruction of the function. */
  function LayFor(first: bool, pre: seq<Cell>, T: seq<Instr>, body: seq<Cell>, I: seq<Instr>): seq<Cell>
    requires T != []
  {
    pre + (Cells(if first && |pre| + |T| == 1 then T else Patch(T, |body| + |I| + 1))
           + LayForever(body, I, |pre| + |T|))
  }

  /** The optimizer flag after code that, unless empty, ends with the optimizer told not to look back. */
  function FlagAfter(pre: Code, opt: bool): bool { pre.Nil? && opt }

  /** The code of c; `opt` says whether the optimizer may act on its first instruction and
      `first` whether that is the first instruction of the function. */
  function Gen(c: Code, opt: bool, parent: bool, first: bool): seq<Cell> {
    match c
    case Nil => []
    case Line(items) => Cells(Fuse(items, opt, parent).code)
    case Seq(a, b) =>
      var A := Gen(a, opt, parent, first);
      A + Gen(b, false, parent, first && A == [])
    case If(test, r, thn) => LayIf(TestCode(test, r, opt, parent), Gen(thn, true, parent, false))
    case IfElse(test, r, thn, els) =>
      LayIfElse(TestCode(test, r, opt, parent), Gen(thn, true, parent, false), Gen(els, true, parent, false))
    case Logic(isAnd, trg, f, rest) => LayLogic(isAnd, trg, f, Gen(rest, true, parent, false))
    case While(_, pre, test, r, body) =>
      LayWhile(Gen(pre, opt, parent, first), TestCode(test, r, FlagAfter(pre, opt), parent), Gen(body, true, parent, false))
    case DoWhile(_, body, pre, test, r) =>
      var B := Gen(body, opt, parent, first);
      LayDoWhile(B, Gen(pre, false, parent, first && B == []), TestCode(test, r, false, parent))
    case For(_, locals, pre, test, r, incr, body) =>
      LayFor(first, Gen(pre, false, parent, first), TestCode(test, r, false, parent),
             Gen(body, false, parent, false), IncrCode(incr, locals, parent))
    case Forever(_, locals, incr, body) =>
      LayForever(Gen(body, false, parent, first), IncrCode(incr, locals, parent), 0)
    case Break => [BreakHole]
    case Continue => [ContinueHole]
  }

  // ----- meaning -----

  datatype Outcome<!V, !W> =
    | Fell(s: State<V, W>)
    | Broke(s: State<V, W>)
    | Continued(s: State<V, W>)
    | Ended(h: Halt<V, W>)
    | Timeout

  /** Runs a test; `jump` says that its value is false. */
  function Tested<V, W>(env: Env<V, W>, test: seq<Item>, r: Byte, s: State<V, W>): Res<V, W> {
    RunLine(env, Unfused(TestItems(test, r)), s)
  }

  /** Whether a loop goes on, stops, or is left in another way. */
  datatype Verdict<!V, !W> = Yes(s: State<V, W>) | No(s: State<V, W>) | Other(o: Outcome<V, W>)

  /** The value of a loop condition, after the outcome o of its logical operators. */
  function Checked<V, W>(env: Env<V, W>, o: Outcome<V, W>, test: seq<Item>, r: Byte): Verdict<V, W> {
    if !o.Fell? then Other(o)
    else
      match Tested(env, test, r, o.s)
      case Stop(h) => Other(Ended(h))
      case Go(no, s') => if no then No(s') else Yes(s')
  }

  /** A body that falls through or continues leads to the rest of the turn, a break out of the loop. */
  function AfterBody<V, W>(o: Outcome<V, W>): Verdict<V, W> {
    match o
    case Fell(s) => Yes(s)
    case Continued(s) => Yes(s)
    case Broke(s) => No(s)
    case Ended(h) => Other(o)
    case Timeout => Other(o)
  }

  function Incremented<V, W>(env: Env<V, W>, v: Verdict<V, W>, incr: seq<Item>): Verdict<V, W> {
    if !v.Yes? then v
    else
      match RunLine(env, Unfused(incr), v.s)
      case Stop(h) => Other(Ended(h))
      case Go(_, s') => Yes(s')
  }

  /** The meaning of structured code, with at most `fuel` turns of each loop. */
  function Ev<V, W>(env: Env<V, W>, c: Code, s: State<V, W>, fuel: nat): Outcome<V, W>
    decreases fuel, c
  {
    match c
    case Nil => Fell(s)
    case Line(items) =>
      (match RunLine(env, Unfused(items), s)
       case Go(_, s') => Fell(s')
       case Stop(h) => Ended(h))
    case Seq(a, b) =>
      var o := Ev(env, a, s, fuel);
      if o.Fell? then Ev(env, b, o.s, fuel) else o
    case If(test, r, thn) =>
      (match Tested(env, test, r, s)
       case Go(no, s') => if no then Fell(s') else Ev(env, thn, s', fuel)
       case Stop(h) => Ended(h))
    case IfElse(test, r, thn, els) =>
      (match Tested(env, test, r, s)
       case Go(no, s') => Ev(env, if no then els else thn, s', fuel)
       case Stop(h) => Ended(h))
    case Logic(isAnd, trg, f, rest) =>
      if env.isFalse(s.regs(f)) == isAnd then Fell(s.(regs := Upd(s.regs, trg, s.regs(f))))
      else Ev(env, rest, s, fuel)
    case While(_, pre, test, r, body) =>
      if fuel == 0 then Timeout
      else
        (match Checked(env, Ev(env, pre, s, fuel), test, r)
         case Other(o) => o
         case No(s') => Fell(s')
         case Yes(s') =>
           match AfterBody(Ev(env, body, s', fuel))
           case Other(o) => o
           case No(s'') => Fell(s'')
           case Yes(s'') => Ev(env, c, s'', fuel - 1))
    case DoWhile(_, body, pre, test, r) =>
      if fuel == 0 then Timeout
      else
        (match AfterBody(Ev(env, body, s, fuel))
         case Other(o) => o
         case No(s') => Fell(s')
         case Yes(s') =>
           match Checked(env, Ev(env, pre, s', fuel), test, r)
           case Other(o) => o
           case No(s'') => Fell(s'')
           case Yes(s'') => Ev(env, c, s'', fuel - 1))
    case For(_, _, pre, test, r, incr, body) =>
      if fuel == 0 then Timeout
      else
        (match Checked(env, Ev(env, pre, s, fuel), test, r)
         case Other(o) => o
         case No(s') => Fell(s')
         case Yes(s') =>
           match Incremented(env, AfterBody(Ev(env, body, s', fuel)), incr)
           case Other(o) => o
           case No(s'') => Fell(s'')
           case Yes(s'') => Ev(env, c, s'', fuel - 1))
    case Forever(_, _, incr, body) =>
      if fuel == 0 then Timeout
      else
        (match Incremented(env, AfterBody(Ev(env, body, s, fuel)), incr)
         case Other(o) => o
         case No(s') => Fell(s')
         case Yes(s') => Ev(env, c, s', fuel - 1))
    case Break => Broke(s)
    case Continue => Continued(s)
  }
}
