/** The expression compiler is right: the acts of an expression, run one by one, leave its value in its
    register, the world and the variables as its meaning says, and every other register that was taken. */
module Values {
  import opened Common
  import opened Bytecode
  import opened Peephole
  import opened Codegen
  import opened Syntax
  import opened Meaning
  import opened Expressions

  // ----- acts run one by one -----

  function Plain<V, W>(env: Env<V, W>, items: seq<Item>, s: State<V, W>): Res<V, W> {
    match RunLine(env, Unfused(items), s)
    case Stop(h) => Stop(h)
    case Go(_, t) => Go(false, t)
  }

  function Onward<V, W>(env: Env<V, W>, r: Res<V, W>, items: seq<Item>): Res<V, W> {
    match r
    case Stop(h) => Stop(h)
    case Go(_, t) => Plain(env, items, t)
  }

  /** A line of acts, in terms of running them one by one. */
  lemma LineIs<V, W>(env: Env<V, W>, items: seq<Item>, s: State<V, W>, fuel: nat)
    ensures var r := Plain(env, items, s);
      Ev(env, Line(items), s, fuel) == if r.Go? then Fell(r.st) else Ended(r.h)
  {
    hide RunLine, Unfused;
  }

  lemma {:induction false} UnfusedJoin(a: seq<Item>, b: seq<Item>)
    ensures Unfused(a + b) == Unfused(a) + Unfused(b)
    decreases |b|
  {
    if b == [] {
      assert a + b == a && Unfused(a) + [] == Unfused(a);
    } else {
      var n := |b| - 1;
      UnfusedJoin(a, b[..n]);
      assert (a + b)[..|a| + n] == a + b[..n] && b == b[..n] + [b[n]];
    }
  }

  lemma {:induction false} RunJoin<V, W>(env: Env<V, W>, a: seq<Instr>, b: seq<Instr>, s: State<V, W>)
    ensures RunLine(env, a, s).Stop? ==> RunLine(env, a + b, s) == RunLine(env, a, s)
    ensures RunLine(env, a, s).Go? && b == [] ==> RunLine(env, a + b, s) == RunLine(env, a, s)
    ensures RunLine(env, a, s).Go? && b != [] ==> RunLine(env, a + b, s) == RunLine(env, b, RunLine(env, a, s).st)
    decreases |b|
  {
    hide Exec;
    if b == [] {
      assert a + b == a;
    } else {
      var n := |b| - 1;
      RunJoin(env, a, b[..n], s);
      assert (a + b)[..|a| + n] == a + b[..n] && (a + b)[|a| + n] == b[n];
    }
  }

  lemma PlainJoin<V, W>(env: Env<V, W>, a: seq<Item>, b: seq<Item>, s: State<V, W>)
    ensures Plain(env, a + b, s) == Onward(env, Plain(env, a, s), b)
  {
    hide Exec, Unfused;
    UnfusedJoin(a, b);
    RunJoin(env, Unfused(a), Unfused(b), s);
  }

  lemma PlainFour<V, W>(env: Env<V, W>, a: seq<Item>, b: seq<Item>, c: seq<Item>, d: seq<Item>, s: State<V, W>)
    ensures Plain(env, a + b + c + d, s) == Onward(env, Onward(env, Onward(env, Plain(env, a, s), b), c), d)
  {
    hide Plain;
    PlainJoin(env, a, b, s);
    PlainJoin(env, a + b, c, s);
    PlainJoin(env, a + b + c, d, s);
  }

  lemma PlainOne<V, W>(env: Env<V, W>, i: Instr, k: nat, s: State<V, W>)
    ensures var x := Exec(env, i, s);
      Plain(env, Issue(i, k), s) == if x.Stop? then x else Go(false, x.st)
  {
    hide Exec;
    var none: seq<Item> := [];
    assert Issue(i, k)[..0] == none && Unfused(none) == [];
    assert Unfused(Issue(i, k)) == [i];
    RunSnoc(env, [], i, s);
    assert [] + [i] == [i];
  }

  lemma PlainSnooze<V, W>(env: Env<V, W>, s: State<V, W>)
    ensures Plain(env, [Snooze], s) == Go(false, s)
  {
    var none: seq<Item> := [];
    assert [Snooze][..0] == none;
    assert Unfused([Snooze]) == Unfused(none) + [];
  }

  lemma PlainNone<V, W>(env: Env<V, W>, s: State<V, W>)
    ensures Plain(env, [], s) == Go(false, s)
  {
  }

  // ----- what a run leaves -----

  /** The temporaries below `top` are what they were. */
  ghost predicate Kept<V, W>(s: State<V, W>, t: State<V, W>, k: nat, top: nat) {
    forall q :: k <= q < top ==> t.regs(q) == s.regs(q)
  }

  /** The place of a value is the register the compiler has for it. */
  ghost predicate Sits<V, W>(p: Place<V>, e: Expr, top: nat, t: State<V, W>) {
    if InLocal(e) then p == Var(Reg(e, top)) else p == Held(t.regs(top))
  }

  /** A run from s did what the answer says. */
  ghost predicate Yields<V, W>(env: Env<V, W>, a: Ans<V, W>, r: Res<V, W>, s: State<V, W>, e: Expr, k: nat, top: nat) {
    match a
    case Got(p, m) => r.Go? && Agree(Range(0, k), m, r.st) && Kept(s, r.st, k, top) && Sits(p, e, top, r.st)
    case Fails(h) => r.Stop? && HaltAgree(env, Range(0, k), h, r.h)
  }

  /** The same for an answer in the fresh register `top`. */
  ghost predicate Fills<V, W>(env: Env<V, W>, a: Ans<V, W>, r: Res<V, W>, s: State<V, W>, k: nat, top: nat) {
    match a
    case Got(p, m) => r.Go? && Agree(Range(0, k), m, r.st) && Kept(s, r.st, k, top) && p == Held(r.st.regs(top))
    case Fails(h) => r.Stop? && HaltAgree(env, Range(0, k), h, r.h)
  }

  lemma FillsYields<V, W>(env: Env<V, W>, a: Ans<V, W>, r: Res<V, W>, s: State<V, W>, t: State<V, W>, e: Expr, k: nat, top: nat)
    requires Fills(env, a, r, t, k, top) && Kept(s, t, k, top) && !InLocal(e)
    ensures Yields(env, a, r, s, e, k, top)
  {
  }

  /** The register of a place holds its value. */
  lemma PlaceHolds<V, W>(p: Place<V>, e: Expr, k: nat, top: nat, sure: bool, m: State<V, W>, t: State<V, W>)
    requires Fitting(e, k, top, sure) && 1 <= k <= top <= 255 && Agree(Range(0, k), m, t) && Sits(p, e, top, t)
    ensures t.regs(Reg(e, top)) == Val(p, m) && (IsThis(p) <==> Reg(e, top) == 0) && Reg(e, top) < 255
  {
    hide Fitting;
    RegIn(e, k, top, sure);
  }

  /** The same after later operands have been evaluated: a temporary is kept, a variable is what it is now. */
  lemma PlaceLater<V, W>(p: Place<V>, e: Expr, k: nat, top: nat, sure: bool, t: State<V, W>, m: State<V, W>, u: State<V, W>)
    requires Fitting(e, k, top, sure) && 1 <= k <= top <= 255 && Sits(p, e, top, t)
    requires Agree(Range(0, k), m, u) && Kept(t, u, k, Top(e, top))
    ensures u.regs(Reg(e, top)) == Val(p, m) && (IsThis(p) <==> Reg(e, top) == 0) && Reg(e, top) < 255
  {
    hide Fitting;
    RegIn(e, k, top, sure);
  }

  // ----- single instructions -----

  lemma SimpleFills<V, W>(env: Env<V, W>, e: Expr, k: nat, top: nat, m: State<V, W>, s: State<V, W>)
    requires (e.GetOuter? || e.Lit? || e.Null?) && Fitting(e, k, top, true) && k <= top && Agree(Range(0, k), m, s)
    ensures var x := Exec(env, Final(e, top), s);
      Fills(env, Eval(env, e, m), x, s, k, top)
  {
  }

  lemma BinFills<V, W>(env: Env<V, W>, op: Op, kind: Byte, l: Byte, r: Byte, k: nat, top: Byte, m: State<V, W>, s: State<V, W>)
    requires op in {ADD, SUB, MUL, DIV, MOD, BITW, EQ, NE, CMP} && (op == MOD ==> env.watch) && (op in {EQ, NE} ==> kind == 0)
    requires k <= top as int && Agree(Range(0, k), m, s)
    ensures Fills(env, Apply(env, op, kind, m, s.regs(l), s.regs(r)), Exec(env, Instr(op, top, r, l, kind), s), s, k, top)
  {
  }

  lemma GetFills<V, W>(env: Env<V, W>, o: Byte, key: Byte, k: nat, top: Byte, m: State<V, W>, s: State<V, W>)
    requires k <= top as int && Agree(Range(0, k), m, s)
    ensures Fills(env, Answer(env.getSlot(m.w, s.regs(o), s.regs(key), o == 0), m), Exec(env, Instr(GET, top, o, key, 0), s), s, k, top)
  {
  }

  lemma SetFills<V, W>(env: Env<V, W>, op: Op, o: Byte, key: Byte, v: Byte, k: nat, top: Byte, m: State<V, W>, s: State<V, W>)
    requires op in {SET, NEWSLOT} && k <= top as int && top < 255 && Agree(Range(0, k), m, s)
    ensures Fills(env, StoreSlot(env, op, m, s.regs(o), o == 0, s.regs(key), s.regs(v)), Exec(env, Instr(op, top, o, key, v), s), s, k, top)
  {
  }

  lemma OuterFills<V, W>(env: Env<V, W>, n: int, v: Byte, k: nat, top: Byte, m: State<V, W>, s: State<V, W>)
    requires k <= top as int && top < 255 && Agree(Range(0, k), m, s)
    ensures Fills(env, Got(Held(s.regs(v)), State(m.regs, env.setouter(m.w, n, s.regs(v)))), Exec(env, Instr(SETOUTER, top, n,
      v, 0), s), s, k, top)
  {
  }

  /** A move into a variable, and an operator that updates one: only that variable changes. */
  ghost predicate Changes<V, W>(env: Env<V, W>, a: Ans<V, W>, r: Res<V, W>, s: State<V, W>, k: nat, x: nat) {
    match a
    case Got(p, m) => r.Go? && p == Var(x) && Agree(Range(0, k), m, r.st) && forall q :: q >= k ==> r.st.regs(q) == s.regs(q)
    case Fails(h) => r.Stop? && HaltAgree(env, Range(0, k), h, r.h)
  }

  lemma MoveChanges<V, W>(env: Env<V, W>, x: Byte, v: Byte, k: nat, m: State<V, W>, s: State<V, W>)
    requires x as int < k && Agree(Range(0, k), m, s)
    ensures Changes(env, Got(Var(x), State(Upd(m.regs, x, s.regs(v)), m.w)), Exec(env, Instr(MOVE, x, v, 0, 0), s), s, k, x)
  {
  }

  lemma UpdateChanges<V, W>(env: Env<V, W>, op: Op, x: Byte, v: Byte, k: nat, m: State<V, W>, s: State<V, W>)
    requires op in {ADD, SUB, MUL, DIV, MOD} && x as int < k && Agree(Range(0, k), m, s)
    ensures Changes(env, Update(env, op, x, m, s.regs(v)), Exec(env, Instr(op, x, v, x, 0), s), s, k, x)
  {
  }

  lemma MakeIs(op: Op, a0: int, a1: int, a2: int, a3: int)
    requires 0 <= a0 < 256 && 0 <= a2 < 256 && 0 <= a3 < 256
    ensures Make(op, a0, a1, a2, a3) == Instr(op, a0, a1, a2, a3)
  {
  }

  // ----- operands -----

  /** After two operands: their registers hold their values, and temporaries are kept. */
  ghost predicate Operands<V, W>(env: Env<V, W>, a: Ans<V, W>, b: Ans<V, W>, r: Res<V, W>, s: State<V, W>, l: nat,
        rr: nat, k: nat, top: nat) {
    if a.Fails? then r.Stop? && HaltAgree(env, Range(0, k), a.h, r.h)
    else if b.Fails? then r.Stop? && HaltAgree(env, Range(0, k), b.h, r.h)
    else
      && r.Go? && Agree(Range(0, k), b.s, r.st) && Kept(s, r.st, k, top) && l < 255 && rr < 255
      && r.st.regs(l) == Val(a.p, b.s) && r.st.regs(rr) == Val(b.p, b.s) && (IsThis(a.p) <==> l == 0)
  }

  lemma PairRuns<V, W>(env: Env<V, W>, x: Expr, y: Expr, k: nat, top: nat, sure: bool, a: Ans<V, W>, b: Ans<V, W>, s: State<V, W>)
    requires Fitting(x, k, top, sure) && Fitting(y, k, Top(x, top), sure) && 1 <= k <= top <= 255
    requires var r := Plain(env, Acts(x, k, top), s);
      && Yields(env, a, r, s, x, k, top)
      && (a.Got? ==> Yields(env, b, Plain(env, Acts(y, k, Top(x, top)), r.st), r.st, y, k, Top(x, top)))
    ensures Operands(env, a, b, Plain(env, Acts(x, k, top) + Acts(y, k, Top(x, top)), s), s, Reg(x, top), Reg(y, Top(x, top)), k, top)
  {
    hide Fitting, Acts, Plain, Reg, InLocal, HaltAgree, Range;
    var t := Top(x, top);
    PlainJoin(env, Acts(x, k, top), Acts(y, k, t), s);
    StackedMore(x, k, top, {}, sure);
    if a.Got? && b.Got? {
      var r1 := Plain(env, Acts(x, k, top), s);
      var r2 := Plain(env, Acts(y, k, t), r1.st);
      PlaceLater(a.p, x, k, top, sure, r1.st, b.s, r2.st);
      PlaceHolds(b.p, y, k, t, sure, b.s, r2.st);
    }
  }

  // ----- every expression -----

  /** Where an expression may start. */
  ghost predicate Begins<V, W>(env: Env<V, W>, e: Expr, k: nat, top: nat, sure: bool, m: State<V, W>, s: State<V, W>) {
    Fitting(e, k, top, sure) && 1 <= k <= top <= 255 && (sure ==> env.watch) && Agree(Range(0, k), m, s)
  }

  /** The acts of every expression, run one by one from any state, do what the expression means. */
  lemma {:induction false} EvalRun<V, W>(env: Env<V, W>, e: Expr, k: nat, top: nat, sure: bool, m: State<V, W>, s: State<V, W>)
    requires Begins(env, e, k, top, sure, m, s)
    ensures Yields(env, Eval(env, e, m), Plain(env, Acts(e, k, top), s), s, e, k, top)
    decreases e, 4
  {
    hide Begins, Yields, Eval, Plain, Acts;
    match e
    case Local(_) => SimpleRun(env, e, k, top, sure, m, s);
    case GetOuter(_) => SimpleRun(env, e, k, top, sure, m, s);
    case Lit(_, _) => SimpleRun(env, e, k, top, sure, m, s);
    case Null => SimpleRun(env, e, k, top, sure, m, s);
    case Index(_, _) => OperatorRun(env, e, k, top, sure, m, s);
    case Bin(_, _, _, _) => OperatorRun(env, e, k, top, sure, m, s);
    case AssignLocal(_, _) => AssignRun(env, e, k, top, sure, m, s);
    case Compound(_, _, _) => AssignRun(env, e, k, top, sure, m, s);
    case AssignOuter(_, _) => AssignRun(env, e, k, top, sure, m, s);
    case SetSlot(_, _, _, _) => SetRun(env, e, k, top, sure, m, s);
    case Call(_, _) => CallRun(env, e, k, top, sure, m, s);
    case Method(_, _, _) => MethodRun(env, e, k, top, sure, m, s);
    case Comma(_, _) => CommaRun(env, e, k, top, sure, m, s);
  }

  lemma SimpleRun<V, W>(env: Env<V, W>, e: Expr, k: nat, top: nat, sure: bool, m: State<V, W>, s: State<V, W>)
    requires (e.Local? || e.GetOuter? || e.Lit? || e.Null?) && Begins(env, e, k, top, sure, m, s)
    ensures Yields(env, Eval(env, e, m), Plain(env, Acts(e, k, top), s), s, e, k, top)
  {
    hide Plain, Exec, Range;
    if e.Local? {
      PlainNone(env, s);
    } else {
      PlainOne(env, Final(e, top), k, s);
      SimpleFills(env, e, k, top, m, s);
    }
  }

  /** The meaning of an operator of two operands, and of reading a slot, once both are there. */
  function Combined<V, W>(env: Env<V, W>, e: Expr, a: Ans<V, W>, b: Ans<V, W>): Ans<V, W> {
    if a.Fails? then a
    else if b.Fails? then b
    else if e.Bin? then Apply(env, e.op, e.kind, b.s, Val(a.p, b.s), Val(b.p, b.s))
    else Answer(env.getSlot(b.s.w, Val(a.p, b.s), Val(b.p, b.s), IsThis(a.p)), b.s)
  }

  lemma CombinedIs<V, W>(env: Env<V, W>, e: Expr, x: Expr, y: Expr, m: State<V, W>)
    requires (e.Index? && x == e.obj && y == e.key) || (e.Bin? && x == e.left && y == e.right)
    ensures var a := Eval(env, x, m);
      Eval(env, e, m) == Combined(env, e, a, if a.Got? then Eval(env, y, a.s) else a)
  {
  }

  lemma CombinedRuns<V, W>(env: Env<V, W>, e: Expr, a: Ans<V, W>, b: Ans<V, W>, l: nat, r: nat, k: nat, top: nat,
        s: State<V, W>, t: Res<V, W>)
    requires (e.Index? || e.Bin?) && Operands(env, a, b, t, s, l, r, k, top) && 1 <= k <= top < 255
    requires e.Bin? ==> e.op in {ADD, SUB, MUL, DIV, MOD, BITW, EQ, NE, CMP} && (e.op in {EQ, NE} ==> e.kind == 0)
    requires e.Bin? && e.op == MOD ==> env.watch
    ensures var i := if e.Bin? then Make(e.op, top, r, l, e.kind) else Make(GET, top, l, r, 0);
      Yields(env, Combined(env, e, a, b), Onward(env, t, Issue(i, k)), s, e, k, top)
  {
    hide Exec, Plain, Apply, HaltAgree, Agree, Range, Make, Issue;
    if a.Got? && b.Got? {
      if e.Bin? {
        MakeIs(e.op, top, r, l, e.kind);
        PlainOne(env, Instr(e.op, top, r, l, e.kind), k, t.st);
        BinFills(env, e.op, e.kind, l, r, k, top, b.s, t.st);
      } else {
        MakeIs(GET, top, l, r, 0);
        PlainOne(env, Instr(GET, top, l, r, 0), k, t.st);
        GetFills(env, l, r, k, top, b.s, t.st);
      }
    }
  }

  lemma {:induction false} OperatorRun<V, W>(env: Env<V, W>, e: Expr, k: nat, top: nat, sure: bool, m: State<V, W>, s: State<V, W>)
    requires (e.Index? || e.Bin?) && Begins(env, e, k, top, sure, m, s)
    ensures Yields(env, Eval(env, e, m), Plain(env, Acts(e, k, top), s), s, e, k, top)
    decreases e, 3
  {
    var x, y := if e.Index? then e.obj else e.left, if e.Index? then e.key else e.right;
    var t := Top(x, top);
    var i := if e.Bin? then Make(e.op, top, Reg(y, t), Reg(x, top), e.kind) else Make(GET, top, Reg(x, top), Reg(y, t), 0);
    assert Acts(e, k, top) == Acts(x, k, top) + Acts(y, k, t) + Issue(i, k);
    assert Fitting(x, k, top, sure) && Fitting(y, k, t, sure) && top < 255;
    StackedMore(x, k, top, {}, sure);
    hide Plain, Acts, Yields, Operands, Agree, Range, Make, Issue, Eval, Combined;
    var a := Eval(env, x, m);
    CombinedIs(env, e, x, y, m);
    EvalRun(env, x, k, top, sure, m, s);
    var r1 := Plain(env, Acts(x, k, top), s);
    if a.Got? {
      YieldsGo(env, a, r1, s, x, k, top);
      EvalRun(env, y, k, t, sure, a.s, r1.st);
    }
    var b := if a.Got? then Eval(env, y, a.s) else a;
    PairRuns(env, x, y, k, top, sure, a, b, s);
    CombinedRuns(env, e, a, b, Reg(x, top), Reg(y, t), k, top, s, Plain(env, Acts(x, k, top) + Acts(y, k, t), s));
    PlainJoin(env, Acts(x, k, top) + Acts(y, k, t), Issue(i, k), s);
  }

  lemma YieldsGo<V, W>(env: Env<V, W>, a: Ans<V, W>, r: Res<V, W>, s: State<V, W>, e: Expr, k: nat, top: nat)
    requires Yields(env, a, r, s, e, k, top)
    ensures a.Got? <==> r.Go?
    ensures a.Got? ==> Agree(Range(0, k), a.s, r.st) && Kept(s, r.st, k, top) && Sits(a.p, e, top, r.st)
    ensures a.Fails? ==> HaltAgree(env, Range(0, k), a.h, r.h)
  {
  }

  lemma {:induction false} CommaRun<V, W>(env: Env<V, W>, e: Expr, k: nat, top: nat, sure: bool, m: State<V, W>, s: State<V, W>)
    requires e.Comma? && Begins(env, e, k, top, sure, m, s)
    ensures Yields(env, Eval(env, e, m), Plain(env, Acts(e, k, top), s), s, e, k, top)
    decreases e, 3
  {
    hide Plain;
    EvalRun(env, e.first, k, top, sure, m, s);
    var a, r1 := Eval(env, e.first, m), Plain(env, Acts(e.first, k, top), s);
    if a.Got? { EvalRun(env, e.second, k, top, sure, a.s, r1.st); }
    PlainJoin(env, Acts(e.first, k, top), Acts(e.second, k, top), s);
  }

  // ----- assignments -----

  function Taken<V, W>(env: Env<V, W>, e: Expr, a: Ans<V, W>): Ans<V, W>
    requires e.AssignLocal? || e.Compound? || e.AssignOuter?
  {
    if a.Fails? then a
    else
      var v := Val(a.p, a.s);
      match e
      case AssignLocal(x, _) => Got(Var(x), State(Upd(a.s.regs, x, v), a.s.w))
      case Compound(op, x, _) => Update(env, op, x, a.s, v)
      case AssignOuter(n, _) => Got(Held(v), State(a.s.regs, env.setouter(a.s.w, n, v)))
  }

  lemma {:induction false} AssignRun<V, W>(env: Env<V, W>, e: Expr, k: nat, top: nat, sure: bool, m: State<V, W>, s: State<V, W>)
    requires (e.AssignLocal? || e.Compound? || e.AssignOuter?) && Begins(env, e, k, top, sure, m, s)
    ensures Yields(env, Eval(env, e, m), Plain(env, Acts(e, k, top), s), s, e, k, top)
    decreases e, 3
  {
    AssignActs(e, k, top);
    var a, r1 := Eval(env, e.value, m), Plain(env, Acts(e.value, k, top), s);
    assert Eval(env, e, m) == Taken(env, e, a);
    EvalRun(env, e.value, k, top, sure, m, s);
    hide Plain, Acts, Agree, Range, Eval, Taken, Assigning;
    PlainJoin(env, Acts(e.value, k, top), Assigning(e, k, top, Reg(e.value, top)), s);
    if a.Got? {
      PlaceHolds(a.p, e.value, k, top, sure, a.s, r1.st);
      AssigningRuns(env, e, k, top, sure, a, Reg(e.value, top), s, r1.st);
    } else {
      AssignFails(env, e, a);
    }
  }

  lemma AssignFails<V, W>(env: Env<V, W>, e: Expr, a: Ans<V, W>)
    requires (e.AssignLocal? || e.Compound? || e.AssignOuter?) && a.Fails?
    ensures Taken(env, e, a) == a
  {
  }

  lemma AssigningRuns<V, W>(env: Env<V, W>, e: Expr, k: nat, top: nat, sure: bool, a: Ans<V, W>, r: nat, s: State<V, W>, t: State<V, W>)
    requires (e.AssignLocal? || e.Compound? || e.AssignOuter?) && Fitting(e, k, top, sure) && 1 <= k <= top <= 255
    requires a.Got? && Agree(Range(0, k), a.s, t) && Kept(s, t, k, top) && r < 255 && t.regs(r) == Val(a.p, a.s)
    ensures Yields(env, Taken(env, e, a), Plain(env, Assigning(e, k, top, r), t), s, e, k, top)
  {
    hide Exec, Plain, Agree, Range, Issue, Make, Update, HaltAgree;
    match e
    case AssignLocal(x, _) =>
      MakeIs(MOVE, x, r, 0, 0);
      PlainOne(env, Instr(MOVE, x, r, 0, 0), k, t);
      MoveChanges(env, x, r, k, a.s, t);
    case Compound(op, x, _) =>
      MakeIs(op, x, r, x, 0);
      var i := Instr(op, x, r, x, 0);
      PlainOne(env, i, k, t);
      UpdateChanges(env, op, x, r, k, a.s, t);
      PlainJoin(env, Issue(i, k), [Snooze], t);
      var mid := Plain(env, Issue(i, k), t);
      if mid.Go? { PlainSnooze(env, mid.st); }
    case AssignOuter(n, _) =>
      MakeIs(SETOUTER, top, n, r, 0);
      PlainOne(env, Instr(SETOUTER, top, n, r, 0), k, t);
      OuterFills(env, n, r, k, top, a.s, t);
  }

  // ----- slots and calls -----

  /** After three operands. */
  ghost predicate Operands3<V, W>(a: Ans<V, W>, b: Ans<V, W>, c: Ans<V, W>, r: State<V, W>, s: State<V, W>, l: nat,
        q: nat, v: nat, k: nat, top: nat)
  {
    && a.Got? && b.Got? && c.Got? && Agree(Range(0, k), c.s, r) && Kept(s, r, k, top) && l < 255 && q < 255 && v < 255
    && r.regs(l) == Val(a.p, c.s) && r.regs(q) == Val(b.p, c.s) && r.regs(v) == Val(c.p, c.s) && (IsThis(a.p) <==> l == 0)
  }

  lemma TripleRuns<V, W>(x: Expr, y: Expr, w: Expr, k: nat, top: nat, sure: bool, a: Ans<V, W>, b: Ans<V, W>,
        c: Ans<V, W>, s: State<V, W>, s1: State<V, W>, s2: State<V, W>, s3: State<V, W>)
    requires 1 <= k <= top <= 255 && Fitting(x, k, top, sure) && Fitting(y, k, Top(x, top), sure)
      && Fitting(w, k, Top(y, Top(x, top)), sure)
    requires a.Got? && b.Got? && c.Got? && Agree(Range(0, k), c.s, s3)
    requires Kept(s, s1, k, top) && Kept(s1, s2, k, Top(x, top)) && Kept(s2, s3, k, Top(y, Top(x, top)))
    requires Sits(a.p, x, top, s1) && Sits(b.p, y, Top(x, top), s2) && Sits(c.p, w, Top(y, Top(x, top)), s3)
    ensures Operands3(a, b, c, s3, s, Reg(x, top), Reg(y, Top(x, top)), Reg(w, Top(y, Top(x, top))), k, top)
  {
    hide Fitting, Reg, InLocal, Agree, Range, Sits;
    var t := Top(x, top);
    PairStacked(x, y, k, top, {}, sure);
    PlaceLater(a.p, x, k, top, sure, s1, c.s, s3);
    PlaceLater(b.p, y, k, t, sure, s2, c.s, s3);
    PlaceHolds(c.p, w, k, Top(y, t), sure, c.s, s3);
  }

  lemma SetMeans<V, W>(env: Env<V, W>, e: Expr, m: State<V, W>, a: Ans<V, W>, b: Ans<V, W>, c: Ans<V, W>)
    requires e.SetSlot? && a == Eval(env, e.obj, m) && (a.Got? ==> b == Eval(env, e.key, a.s))
      && (a.Got? && b.Got? ==> c == Eval(env, e.value, b.s))
    ensures Eval(env, e, m) ==
      if a.Fails? then a else if b.Fails? then b else if c.Fails? then c
      else StoreSlot(env, e.op, c.s, Val(a.p, c.s), IsThis(a.p), Val(b.p, c.s), Val(c.p, c.s))
  {
  }

  lemma {:induction false} SetRun<V, W>(env: Env<V, W>, e: Expr, k: nat, top: nat, sure: bool, m: State<V, W>, s: State<V, W>)
    requires e.SetSlot? && Begins(env, e, k, top, sure, m, s)
    ensures Yields(env, Eval(env, e, m), Plain(env, Acts(e, k, top), s), s, e, k, top)
    decreases e, 3
  {
    var t := Top(e.obj, top);
    var u := Top(e.key, t);
    var A, B, C := Acts(e.obj, k, top), Acts(e.key, k, t), Acts(e.value, k, u);
    var i := Make(e.op, top, Reg(e.obj, top), Reg(e.key, t), Reg(e.value, u));
    assert Acts(e, k, top) == A + B + C + Issue(i, k) && !InLocal(e);
    assert Fitting(e.obj, k, top, sure) && Fitting(e.key, k, t, sure)
      && Fitting(e.value, k, u, sure) && top < 255 && e.op in {SET, NEWSLOT};
    PairStacked(e.obj, e.key, k, top, {}, sure);
    hide Plain, Acts, Agree, Range, Make, Issue, Eval, Kept, Sits, Fitting, Reg, InLocal, HaltAgree, Operands3, StoreSlot;
    PlainFour(env, A, B, C, Issue(i, k), s);
    var a := Eval(env, e.obj, m);
    EvalRun(env, e.obj, k, top, sure, m, s);
    var r1 := Plain(env, A, s);
    if a.Got? {
      var b := Eval(env, e.key, a.s);
      EvalRun(env, e.key, k, t, sure, a.s, r1.st);
      var r2 := Plain(env, B, r1.st);
      if b.Got? {
        var c := Eval(env, e.value, b.s);
        EvalRun(env, e.value, k, u, sure, b.s, r2.st);
        SetMeans(env, e, m, a, b, c);
        if c.Got? {
          var r3 := Plain(env, C, r2.st);
          TripleRuns(e.obj, e.key, e.value, k, top, sure, a, b, c, s, r1.st, r2.st, r3.st);
          SetEnds(env, e, a, b, c, k, top, s, r3.st, Reg(e.obj, top), Reg(e.key, t), Reg(e.value, u));
        }
      } else {
        SetMeans(env, e, m, a, b, b);
      }
    } else {
      SetMeans(env, e, m, a, a, a);
    }
  }

  lemma SetEnds<V, W>(env: Env<V, W>, e: Expr, a: Ans<V, W>, b: Ans<V, W>, c: Ans<V, W>, k: nat, top: nat,
        s: State<V, W>, t: State<V, W>, l: nat, q: nat, v: nat)
    requires e.SetSlot? && e.op in {SET, NEWSLOT} && 1 <= k <= top < 255 && Operands3(a, b, c, t, s, l, q, v, k, top)
    ensures Yields(env, StoreSlot(env, e.op, c.s, Val(a.p, c.s), IsThis(a.p), Val(b.p, c.s), Val(c.p, c.s)),
                   Plain(env, Issue(Make(e.op, top, l, q, v), k), t), s, e, k, top)
  {
    hide Exec, Plain, Agree, Range, Issue, Make, HaltAgree, StoreSlot;
    MakeIs(e.op, top, l, q, v);
    PlainOne(env, Instr(e.op, top, l, q, v), k, t);
    SetFills(env, e.op, l, q, v, k, top, c.s, t);
  }

  /** After n arguments behind those in `done`: all that are new stand in the registers counted from `base`. */
  ghost predicate Passed<V, W>(env: Env<V, W>, a: Vals<V, W>, r: Res<V, W>, s: State<V, W>, done: seq<V>, k: nat, base: nat, n: nat) {
    match a
    case All(vs, m) =>
      && r.Go? && Agree(Range(0, k), m, r.st) && Kept(s, r.st, k, base + |done|) && |vs| == |done| + n && vs[..|done|] == done
      && forall j :: |done| <= j < |vs| ==> r.st.regs(base + j) == vs[j]
    case Stops(h) => r.Stop? && HaltAgree(env, Range(0, k), h, r.h)
  }

  lemma {:induction false} ArgRun<V, W>(env: Env<V, W>, e: Expr, k: nat, top: nat, sure: bool, m: State<V, W>, s: State<V, W>)
    requires Begins(env, e, k, top, sure, m, s) && top < 255
    ensures var a, r := Eval(env, e, m), Plain(env, ArgAct(e, k, top), s);
      if a.Fails? then r.Stop? && HaltAgree(env, Range(0, k), a.h, r.h)
      else r.Go? && Agree(Range(0, k), a.s, r.st) && Kept(s, r.st, k, top) && r.st.regs(top) == Val(a.p, a.s)
    decreases e, 5
  {
    var a, r1 := Eval(env, e, m), Plain(env, Acts(e, k, top), s);
    EvalRun(env, e, k, top, sure, m, s);
    hide Eval, Plain, Acts, Exec, Range, Fitting, Issue, Make, HaltAgree;
    if InLocal(e) {
      var i := Instr(MOVE, top, Reg(e, top), 0, 0);
      if a.Got? {
        PlaceHolds(a.p, e, k, top, sure, a.s, r1.st);
        PlainOne(env, i, k, r1.st);
        CopyRuns(env, i, r1.st);
      }
      MakeIs(MOVE, top, Reg(e, top), 0, 0);
      PlainJoin(env, Acts(e, k, top), Issue(Make(MOVE, top, Reg(e, top), 0, 0), k), s);
    } else {
      assert Acts(e, k, top) + [] == Acts(e, k, top);
    }
  }

  lemma CopyRuns<V, W>(env: Env<V, W>, i: Instr, s: State<V, W>)
    requires i.op == MOVE
    ensures Exec(env, i, s) == Go(false, State(Upd(s.regs, i.a0, s.regs(i.a1)), s.w))
  {
  }

  lemma {:induction false} ArgsRun<V, W>(env: Env<V, W>, args: Args, done: seq<V>, k: nat, base: nat, sure: bool,
        m: State<V, W>, s: State<V, W>)
    requires ArgsFit(args, k, base + |done|, sure) && 1 <= k <= base + |done| <= 255 && (sure ==> env.watch) && Agree(Range(0, k), m, s)
    ensures Passed(env, EvalArgs(env, args, done, m), Plain(env, ArgActs(args, k, base + |done|), s), s, done, k, base, Count(args))
    decreases args, 0
  {
    hide Eval, Plain, Range, Fitting, HaltAgree;
    var top := base + |done|;
    match args
    case NoArgs =>
      PlainNone(env, s);
      assert done[..|done|] == done;
    case More(e, rest) =>
      ArgRun(env, e, k, top, sure, m, s);
      PlainJoin(env, ArgAct(e, k, top), ArgActs(rest, k, top + 1), s);
      var a, r1 := Eval(env, e, m), Plain(env, ArgAct(e, k, top), s);
      if a.Got? {
        var v := Val(a.p, a.s);
        ArgsRun(env, rest, done + [v], k, base, sure, a.s, r1.st);
        hide ArgActs, ArgAct;
        PassedOne(env, EvalArgs(env, rest, done + [v], a.s), Plain(env, ArgActs(rest, k, top + 1), r1.st), s, r1.st, done, v,
          k, base, Count(rest));
      }
  }

  lemma PassedOne<V, W>(env: Env<V, W>, a: Vals<V, W>, r: Res<V, W>, s: State<V, W>, t: State<V, W>, done: seq<V>, v: V,
        k: nat, base: nat, n: nat)
    requires Passed(env, a, r, t, done + [v], k, base, n) && Kept(s, t, k, base + |done|)
      && t.regs(base + |done|) == v && k <= base + |done|
    ensures Passed(env, a, r, s, done, k, base, n + 1)
  {
    hide Range, Agree, HaltAgree;
    if a.All? {
      assert a.vs[..|done|] == (done + [v])[..|done|] == done;
      assert a.vs[|done|] == a.vs[..|done| + 1][|done|] == v;
    }
  }

  /** The call itself, with callee, `this` and arguments in place. */
  lemma CallFills<V, W>(env: Env<V, W>, f: Byte, t: Byte, vs: seq<V>, k: nat, top: Byte, m: State<V, W>, s: State<V, W>)
    requires k <= top as int <= t as int && top < 128 && |vs| < 256 && Agree(Range(0, k), m, s)
    requires forall j :: 0 <= j < |vs| ==> s.regs(t + j) == vs[j]
    ensures Fills(env, Answer(env.call(m.w, s.regs(f), vs), m), Exec(env, Instr(CALL, top, f, t, |vs|), s), s, k, top)
  {
    assert Bytecode.Args(s.regs, t, |vs|) == vs;
  }

  lemma CallMeans<V, W>(env: Env<V, W>, e: Expr, m: State<V, W>, a: Ans<V, W>)
    requires e.Call? && a == Eval(env, e.fn, m)
    ensures Eval(env, e, m) ==
      if a.Fails? then a
      else
        var vals := EvalArgs(env, e.args, [a.s.regs(0)], a.s);
        if vals.Stops? then Fails(vals.h) else Answer(env.call(vals.s.w, Val(a.p, vals.s), vals.vs), vals.s)
  {
  }

  /** Arguments behind `this` in register t: all of them stand from t on, and what was below is kept. */
  lemma AllPassed<V, W>(env: Env<V, W>, a: Vals<V, W>, r: Res<V, W>, s: State<V, W>, v: V, k: nat, t: nat, n: nat)
    requires Passed(env, a, r, s, [v], k, t, n) && a.All? && s.regs(t) == v && k <= t
    ensures r.Go? && |a.vs| == n + 1 && Agree(Range(0, k), a.s, r.st) && Kept(s, r.st, k, t)
    ensures forall j :: 0 <= j < |a.vs| ==> r.st.regs(t + j) == a.vs[j]
  {
    hide Range, Agree;
    assert a.vs[0] == a.vs[..1][0] == v;
  }

  lemma KeptTrans<V, W>(s: State<V, W>, t: State<V, W>, u: State<V, W>, k: nat, top: nat, more: nat)
    requires Kept(s, t, k, top) && Kept(t, u, k, more) && top <= more
    ensures Kept(s, u, k, top)
  {
  }

  lemma ThisRuns<V, W>(env: Env<V, W>, t: nat, k: nat, m: State<V, W>, s: State<V, W>)
    requires 1 <= k <= t < 255 && Agree(Range(0, k), m, s)
    ensures var r := Plain(env, Issue(Make(MOVE, t, 0, 0, 0), k), s);
      r.Go? && Agree(Range(0, k), m, r.st) && Kept(s, r.st, k, t) && r.st.regs(t) == m.regs(0)
  {
    hide Exec, Plain, Make, Issue;
    MakeIs(MOVE, t, 0, 0, 0);
    PlainOne(env, Instr(MOVE, t, 0, 0, 0), k, s);
    CopyRuns(env, Instr(MOVE, t, 0, 0, 0), s);
  }

  /** What the arguments of a call leave behind `this` in register t. */
  ghost predicate Lined<V, W>(env: Env<V, W>, vals: Vals<V, W>, r: Res<V, W>, s: State<V, W>, k: nat, t: nat, n: nat) {
    if vals.Stops? then r.Stop? && HaltAgree(env, Range(0, k), vals.h, r.h)
    else
      && r.Go? && |vals.vs| == n && Agree(Range(0, k), vals.s, r.st) && Kept(s, r.st, k, t)
      && forall j :: 0 <= j < |vals.vs| ==> r.st.regs(t + j) == vals.vs[j]
  }

  lemma {:induction false} ArgsLined<V, W>(env: Env<V, W>, args: Args, v: V, k: nat, t: nat, sure: bool, m: State<V, W>, s: State<V, W>)
    requires ArgsFit(args, k, t + 1, sure) && 1 <= k <= t < 255 && (sure ==> env.watch) && Agree(Range(0, k), m, s) && s.regs(t) == v
    ensures Lined(env, EvalArgs(env, args, [v], m), Plain(env, ArgActs(args, k, t + 1), s), s, k, t, Count(args) + 1)
    decreases args, 1
  {
    hide Plain, ArgActs, EvalArgs, ArgsFit, Agree, Range, HaltAgree, Passed, Kept;
    ArgsRun(env, args, [v], k, t, sure, m, s);
    var vals, r := EvalArgs(env, args, [v], m), Plain(env, ArgActs(args, k, t + 1), s);
    if vals.All? {
      AllPassed(env, vals, r, s, v, k, t, Count(args));
    } else {
      PassedStops(env, vals, r, s, [v], k, t, Count(args));
    }
  }

  lemma {:induction false} CallRun<V, W>(env: Env<V, W>, e: Expr, k: nat, top: nat, sure: bool, m: State<V, W>, s: State<V, W>)
    requires e.Call? && Begins(env, e, k, top, sure, m, s)
    ensures Yields(env, Eval(env, e, m), Plain(env, Acts(e, k, top), s), s, e, k, top)
    decreases e, 3
  {
    CallStacked(e, k, top, {}, sure);
    assert Begins(env, e.fn, k, top, sure, m, s) && (sure ==> env.watch) && 1 <= k;
    hide Begins, Plain, Acts, Agree, Range, Eval, Fitting, ArgsFit, Yields, Reg, Own, Stacked;
    EvalRun(env, e.fn, k, top, sure, m, s);
    CallRest(env, e, k, top, sure, m, s, Eval(env, e.fn, m));
  }

  lemma {:induction false} CallRest<V, W>(env: Env<V, W>, e: Expr, k: nat, top: nat, sure: bool, m: State<V, W>,
        s: State<V, W>, a: Ans<V, W>)
    requires e.Call? && Fitting(e, k, top, sure) && 1 <= k <= top <= 255 && (sure ==> env.watch) && a == Eval(env, e.fn, m)
    requires Yields(env, a, Plain(env, Acts(e.fn, k, top), s), s, e.fn, k, top)
    ensures Yields(env, Eval(env, e, m), Plain(env, Acts(e, k, top), s), s, e, k, top)
    decreases e, 2
  {
    hide *;
    var t, n := Top(e.fn, top), Count(e.args);
    var A, T, C := Acts(e.fn, k, top), Issue(Make(MOVE, t, 0, 0, 0), k), ArgActs(e.args, k, t + 1);
    var I := Issue(Make(CALL, top, Reg(e.fn, top), t, n + 1), k);
    CallActs(e, k, top);
    CallFacts(e, k, top, sure);
    CallMeans(env, e, m, a);
    PlainFour(env, A, T, C, I, s);
    var r1 := Plain(env, A, s);
    YieldsGo(env, a, r1, s, e.fn, k, top);
    if a.Got? {
      ThisRuns(env, t, k, a.s, r1.st);
      var r2 := Plain(env, T, r1.st);
      ArgsLined(env, e.args, a.s.regs(0), k, t, sure, a.s, r2.st);
      CallTail(env, e, a, EvalArgs(env, e.args, [a.s.regs(0)], a.s), k, top, sure, s, r1.st, r2.st, Plain(env, C, r2.st));
      Go3(env, r1, r2, T, C, I);
    } else {
      StopsAll(env, r1, T, C, I);
      FailsYields(env, a, r1, s, e, k, top);
    }
  }

  lemma CallFacts(e: Expr, k: nat, top: nat, sure: bool)
    requires e.Call? && Fitting(e, k, top, sure) && 1 <= k <= top <= 255
    ensures ArgsFit(e.args, k, Top(e.fn, top) + 1, sure) && top < 128 && k <= Top(e.fn, top) < 255
  {
    CallStacked(e, k, top, {}, sure);
  }

  lemma Go3<V, W>(env: Env<V, W>, r1: Res<V, W>, r2: Res<V, W>, T: seq<Item>, C: seq<Item>, I: seq<Item>)
    requires r1.Go? && r2 == Plain(env, T, r1.st) && r2.Go?
    ensures Onward(env, Onward(env, Onward(env, r1, T), C), I) == Onward(env, Plain(env, C, r2.st), I)
  {
    hide Plain;
  }

  lemma StopsAll<V, W>(env: Env<V, W>, r: Res<V, W>, T: seq<Item>, C: seq<Item>, I: seq<Item>)
    requires r.Stop?
    ensures Onward(env, Onward(env, Onward(env, r, T), C), I) == r
  {
  }

  lemma FailsYields<V, W>(env: Env<V, W>, a: Ans<V, W>, r: Res<V, W>, s: State<V, W>, e: Expr, k: nat, top: nat)
    requires a.Fails? && r.Stop? && HaltAgree(env, Range(0, k), a.h, r.h)
    ensures Yields(env, a, r, s, e, k, top)
  {
  }

  lemma CallTail<V, W>(env: Env<V, W>, e: Expr, a: Ans<V, W>, vals: Vals<V, W>, k: nat, top: nat, sure: bool,
        s: State<V, W>, s1: State<V, W>, s2: State<V, W>, r: Res<V, W>)
    requires e.Call? && Fitting(e, k, top, sure) && 1 <= k <= top < 128 && a.Got? && Sits(a.p, e.fn, top, s1)
    requires Kept(s, s1, k, top) && Kept(s1, s2, k, Top(e.fn, top)) && Lined(env, vals, r, s2, k, Top(e.fn, top), Count(e.args) + 1)
    ensures var I := Issue(Make(CALL, top, Reg(e.fn, top), Top(e.fn, top), Count(e.args) + 1), k);
      Yields(env, if vals.Stops? then Fails(vals.h) else Answer(env.call(vals.s.w, Val(a.p, vals.s), vals.vs), vals.s),
        Onward(env, r, I), s, e, k, top)
  {
    hide Plain, Agree, Range, Make, Issue, Fitting, Reg, HaltAgree, Kept, Sits, Top, Answer;
    if vals.All? { CallEnds(env, e, a, vals, k, top, sure, s, s1, s2, r.st); }
  }

  lemma PassedStops<V, W>(env: Env<V, W>, a: Vals<V, W>, r: Res<V, W>, s: State<V, W>, done: seq<V>, k: nat, top: nat, n: nat)
    requires Passed(env, a, r, s, done, k, top, n) && a.Stops?
    ensures r.Stop? && HaltAgree(env, Range(0, k), a.h, r.h)
  {
  }

  lemma CallLast<V, W>(env: Env<V, W>, f: nat, t: nat, vals: Vals<V, W>, k: nat, top: nat, s: State<V, W>)
    requires vals.All? && k <= top < 128 && top <= t < 255 && f < 255 && 0 < |vals.vs| < 256 && Agree(Range(0, k), vals.s, s)
    requires forall j :: 0 <= j < |vals.vs| ==> s.regs(t + j) == vals.vs[j]
    ensures Fills(env, Answer(env.call(vals.s.w, s.regs(f), vals.vs), vals.s), Plain(env, Issue(Make(CALL, top, f, t,
      |vals.vs|), k), s), s, k, top)
  {
    hide Exec, Plain, Make, Issue, Agree, Range, Answer, Kept, HaltAgree;
    MakeIs(CALL, top, f, t, |vals.vs|);
    PlainOne(env, Instr(CALL, top, f, t, |vals.vs|), k, s);
    CallFills(env, f, t, vals.vs, k, top, vals.s, s);
  }

  lemma CallEnds<V, W>(env: Env<V, W>, e: Expr, a: Ans<V, W>, vals: Vals<V, W>, k: nat, top: nat, sure: bool,
        s: State<V, W>, s1: State<V, W>, s2: State<V, W>, s3: State<V, W>)
    requires e.Call? && Fitting(e, k, top, sure) && 1 <= k <= top < 128 && a.Got? && vals.All? && Sits(a.p, e.fn, top, s1)
    requires Kept(s, s1, k, top) && Kept(s1, s2, k, Top(e.fn, top)) && Kept(s2, s3, k, Top(e.fn, top)) && Agree(Range(0, k), vals.s, s3)
    requires |vals.vs| == Count(e.args) + 1 && forall j :: 0 <= j < |vals.vs| ==> s3.regs(Top(e.fn, top) + j) == vals.vs[j]
    ensures var i := Make(CALL, top, Reg(e.fn, top), Top(e.fn, top), Count(e.args) + 1);
      Yields(env, Answer(env.call(vals.s.w, Val(a.p, vals.s), vals.vs), vals.s), Plain(env, Issue(i, k), s3), s, e, k, top)
  {
    var t, n := Top(e.fn, top), Count(e.args);
    CallStacked(e, k, top, {}, sure);
    hide Exec, Plain, Agree, Range, Issue, Make, Fitting, ArgsFit, Reg, HaltAgree, Kept, Sits, Fills, Yields, Answer;
    KeptTrans(s1, s2, s3, k, t, t);
    KeptTrans(s, s1, s3, k, top, t);
    PlaceLater(a.p, e.fn, k, top, sure, s1, vals.s, s3);
    CallLast(env, Reg(e.fn, top), t, vals, k, top, s3);
    FillsYields(env, Answer(env.call(vals.s.w, Val(a.p, vals.s), vals.vs), vals.s),
                Plain(env, Issue(Make(CALL, top, Reg(e.fn, top), t, n + 1), k), s3), s, s3, e, k, top);
  }

  lemma MethodMeans<V, W>(env: Env<V, W>, e: Expr, m: State<V, W>, a: Ans<V, W>, b: Ans<V, W>)
    requires e.Method? && a == Eval(env, e.obj, m) && b == (if a.Got? then Eval(env, e.key, a.s) else a)
    ensures Eval(env, e, m) ==
      if b.Fails? then b
      else
        var out := env.getSlot(b.s.w, Val(a.p, b.s), Val(b.p, b.s), IsThis(a.p));
        if out.Err? then Fails(Thrown(out.e, out.w, b.s.regs))
        else
          var vals := EvalArgs(env, e.args, [Val(a.p, b.s)], State(b.s.regs, out.w));
          if vals.Stops? then Fails(vals.h) else Answer(env.call(vals.s.w, out.v, vals.vs), vals.s)
  {
  }

  /** The closure goes to register top, the object to the one behind it. */
  lemma PrepRuns<V, W>(env: Env<V, W>, o: nat, key: nat, k: nat, top: nat, m: State<V, W>, s: State<V, W>)
    requires k <= top < 254 && o < 255 && key < 255 && Agree(Range(0, k), m, s)
    ensures var out := env.getSlot(m.w, s.regs(o), s.regs(key), o == 0);
      var r := Plain(env, Issue(Make(PREPCALL, top, key, o, top + 1), k), s);
      if out.Ok? then
        && r.Go? && Agree(Range(0, k), State(m.regs, out.w), r.st) && Kept(s, r.st, k, top)
        && r.st.regs(top) == out.v && r.st.regs(top + 1) == s.regs(o)
      else r.Stop? && HaltAgree(env, Range(0, k), Thrown(out.e, out.w, m.regs), r.h)
  {
    hide Plain, Make, Issue;
    MakeIs(PREPCALL, top, key, o, top + 1);
    PlainOne(env, Instr(PREPCALL, top, key, o, top + 1), k, s);
  }

  lemma {:induction false} MethodRun<V, W>(env: Env<V, W>, e: Expr, k: nat, top: nat, sure: bool, m: State<V, W>, s: State<V, W>)
    requires e.Method? && Begins(env, e, k, top, sure, m, s)
    ensures Yields(env, Eval(env, e, m), Plain(env, Acts(e, k, top), s), s, e, k, top)
    decreases e, 3
  {
    var t := Top(e.obj, top);
    MethodStacked(e, k, top, {}, sure);
    PairStacked(e.obj, e.key, k, top, {}, sure);
    assert Begins(env, e.obj, k, top, sure, m, s) && !InLocal(e) && (sure ==> env.watch);
    var A, B := Acts(e.obj, k, top), Acts(e.key, k, t);
    hide Begins, Plain, Acts, Agree, Range, Eval, Operands, Sits, Kept, Fitting, ArgsFit, Reg, InLocal, HaltAgree;
    var a := Eval(env, e.obj, m);
    EvalRun(env, e.obj, k, top, sure, m, s);
    var r1 := Plain(env, A, s);
    if a.Got? {
      assert Begins(env, e.key, k, t, sure, a.s, r1.st) by { BeginsAt(env, e.key, k, t, sure, a.s, r1.st); }
      EvalRun(env, e.key, k, t, sure, a.s, r1.st);
    }
    var b := if a.Got? then Eval(env, e.key, a.s) else a;
    PairRuns(env, e.obj, e.key, k, top, sure, a, b, s);
    MethodRest(env, e, k, top, sure, m, s, a, b);
  }

  lemma BeginsAt<V, W>(env: Env<V, W>, e: Expr, k: nat, top: nat, sure: bool, m: State<V, W>, s: State<V, W>)
    requires Fitting(e, k, top, sure) && 1 <= k <= top <= 255 && (sure ==> env.watch) && Agree(Range(0, k), m, s)
    ensures Begins(env, e, k, top, sure, m, s)
  {
  }

  /** The part of a method call behind its object and its key. */
  lemma {:induction false} MethodRest<V, W>(env: Env<V, W>, e: Expr, k: nat, top: nat, sure: bool, m: State<V, W>,
        s: State<V, W>, a: Ans<V, W>, b: Ans<V, W>)
    requires e.Method? && Fitting(e, k, top, sure) && 1 <= k <= top <= 255 && (sure ==> env.watch)
    requires a == Eval(env, e.obj, m) && b == (if a.Got? then Eval(env, e.key, a.s) else a)
    requires Operands(env, a, b, Plain(env, Acts(e.obj, k, top) + Acts(e.key, k, Top(e.obj, top)), s), s, Reg(e.obj, top),
      Reg(e.key, Top(e.obj, top)), k, top)
    ensures Yields(env, Eval(env, e, m), Plain(env, Acts(e, k, top), s), s, e, k, top)
    decreases e, 2
  {
    var t, n := Top(e.obj, top), Count(e.args);
    MethodStacked(e, k, top, {}, sure);
    MethodActs(e, k, top);
    var F, C := Acts(e.obj, k, top) + Acts(e.key, k, t), ArgActs(e.args, k, top + 2);
    var P := Issue(Make(PREPCALL, top, Reg(e.key, t), Reg(e.obj, top), top + 1), k);
    var I := Issue(Make(CALL, top, top, top + 1, n + 1), k);
    assert !InLocal(e);
    hide Plain, Acts, ArgActs, Agree, Range, Make, Issue, Eval, EvalArgs, Kept, Fitting, ArgsFit, Reg, InLocal, HaltAgree, Passed;
    MethodMeans(env, e, m, a, b);
    PlainFour(env, F, P, C, I, s);
    var r := Plain(env, F, s);
    if a.Got? && b.Got? {
      PrepRuns(env, Reg(e.obj, top), Reg(e.key, t), k, top, b.s, r.st);
      var r2 := Plain(env, P, r.st);
      if r2.Go? { MethodTail(env, e, k, top, sure, s, r.st, r2.st, a, b); }
    }
  }

  /** The arguments of a method call and the call, once closure and object are in place. */
  lemma {:induction false} MethodTail<V, W>(env: Env<V, W>, e: Expr, k: nat, top: nat, sure: bool, s: State<V, W>,
        s1: State<V, W>, s2: State<V, W>, a: Ans<V, W>, b: Ans<V, W>)
    requires e.Method? && Fitting(e, k, top, sure) && 1 <= k <= top <= 255 && (sure ==> env.watch) && a.Got? && b.Got?
    requires var out := env.getSlot(b.s.w, Val(a.p, b.s), Val(b.p, b.s), IsThis(a.p));
      && out.Ok? && Agree(Range(0, k), State(b.s.regs, out.w), s2) && Kept(s, s1, k, top) && Kept(s1, s2, k, top)
      && s2.regs(top) == out.v && s2.regs(top + 1) == Val(a.p, b.s)
    ensures var out := env.getSlot(b.s.w, Val(a.p, b.s), Val(b.p, b.s), IsThis(a.p));
      var vals := EvalArgs(env, e.args, [Val(a.p, b.s)], State(b.s.regs, out.w));
      var r := Plain(env, ArgActs(e.args, k, top + 2), s2);
      var I := Issue(Make(CALL, top, top, top + 1, Count(e.args) + 1), k);
      if vals.Stops? then r.Stop? && HaltAgree(env, Range(0, k), vals.h, r.h)
      else r.Go? && Yields(env, Answer(env.call(vals.s.w, out.v, vals.vs), vals.s), Plain(env, I, r.st), s, e, k, top)
    decreases e, 1
  {
    var n := Count(e.args);
    MethodStacked(e, k, top, {}, sure);
    var out := env.getSlot(b.s.w, Val(a.p, b.s), Val(b.p, b.s), IsThis(a.p));
    var this', m2 := Val(a.p, b.s), State(b.s.regs, out.w);
    var vals := EvalArgs(env, e.args, [this'], m2);
    var r := Plain(env, ArgActs(e.args, k, top + 2), s2);
    assert !InLocal(e);
    hide Plain, ArgActs, Agree, Range, Make, Issue, EvalArgs, Fitting, ArgsFit;
    hide HaltAgree, Fills, Yields, Answer, Stacked, Own, Val, IsThis, InLocal;
    ArgsLined(env, e.args, this', k, top + 1, sure, m2, s2);
    if vals.All? {
      assert r.st.regs(top) == s2.regs(top);
      hide Kept;
      KeptTrans(s, s1, s2, k, top, top);
      KeptTrans(s, s2, r.st, k, top, top + 1);
      CallLast(env, top, top + 1, vals, k, top, r.st);
      FillsYields(env, Answer(env.call(vals.s.w, out.v, vals.vs), vals.s),
                  Plain(env, Issue(Make(CALL, top, top, top + 1, n + 1), k), r.st), s, r.st, e, k, top);
    }
  }

}
