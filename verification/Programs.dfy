/** Whole programs: the code the compiler emits does what the program means. */
module Programs {
  import opened Common
  import opened Bytecode
  import opened Peephole
  import opened Codegen
  import opened Simulation
  import opened Syntax
  import opened Meaning
  import opened Expressions
  import opened Values
  import opened Logical
  import opened Statements
  import opened Watch
  import Compiler

  // ----- the pieces of statements -----

  /** One outcome is the other, up to registers that hold no variable. */
  ghost predicate Tracks<V, W>(env: Env<V, W>, o: Outcome<V, W>, p: Outcome<V, W>, k: nat, after: nat) {
    match o
    case Fell(m) => p.Fell? && Agree(Range(0, after), m, p.s)
    case Broke(m) => p.Broke? && Agree(Range(0, k), m, p.s)
    case Continued(m) => p.Continued? && Agree(Range(0, k), m, p.s)
    case Ended(h) => p.Ended? && HaltAgree(env, Range(0, k), h, p.h)
    case Timeout => p.Timeout?
  }

  ghost predicate Judged<V, W>(env: Env<V, W>, v: Verdict<V, W>, u: Verdict<V, W>, k: nat) {
    match v
    case Yes(m) => u.Yes? && Agree(Range(0, k), m, u.s)
    case No(m) => u.No? && Agree(Range(0, k), m, u.s)
    case Other(o) => u.Other? && !o.Fell? && !o.Broke? && !o.Continued? && Tracks(env, o, u.o, k, k)
  }

  lemma DiscardRuns<V, W>(env: Env<V, W>, target: int, s: State<V, W>)
    ensures Plain(env, [Discard(target)], s) == Go(false, s)
  {
    var none: seq<Item> := [];
    assert [Discard(target)][..0] == none;
    assert Unfused([Discard(target)]) == Unfused(none) + [];
  }

  lemma DoRuns<V, W>(env: Env<V, W>, e: Expr, k: nat, sure: bool, m: State<V, W>, s: State<V, W>, fuel: nat)
    requires Begins(env, e, k, k, sure, m, s)
    ensures Tracks(env, Mean(env, Do(e), k, m, fuel), Ev(env, Build(Do(e), k), s, fuel), k, k)
  {
    hide Eval, Plain, Acts, Ev, Range, HaltAgree, Reg, Begins;
    var items := Acts(e, k, k) + [Discard(Reg(e, k))];
    EvalRun(env, e, k, k, sure, m, s);
    LineIs(env, items, s, fuel);
    PlainJoin(env, Acts(e, k, k), [Discard(Reg(e, k))], s);
    var r := Plain(env, Acts(e, k, k), s);
    if r.Go? { DiscardRuns(env, Reg(e, k), r.st); }
  }

  /** The new variable has the value of its expression. */
  lemma DeclareRuns<V, W>(env: Env<V, W>, e: Expr, k: nat, sure: bool, m: State<V, W>, s: State<V, W>, fuel: nat)
    requires Begins(env, e, k, k, sure, m, s) && k < 255
    ensures Tracks(env, Mean(env, Declare(e), k, m, fuel), Ev(env, Build(Declare(e), k), s, fuel), k, k + 1)
  {
    hide Eval, Plain, Acts, Ev, HaltAgree, DeclareActs, Fitting, Reg, InLocal, Range, Agree;
    EvalRun(env, e, k, k, sure, m, s);
    LineIs(env, DeclareActs(e, k), s, fuel);
    DeclarePlain(env, e, k, sure, Eval(env, e, m), s);
  }

  lemma DeclarePlain<V, W>(env: Env<V, W>, e: Expr, k: nat, sure: bool, a: Ans<V, W>, s: State<V, W>)
    requires Fitting(e, k, k, sure) && 1 <= k < 255 && Yields(env, a, Plain(env, Acts(e, k, k), s), s, e, k, k)
    ensures var r := Plain(env, DeclareActs(e, k), s);
      if a.Fails? then r.Stop? && HaltAgree(env, Range(0, k), a.h, r.h)
      else r.Go? && Agree(Range(0, k + 1), State(Upd(a.s.regs, k, Val(a.p, a.s)), a.s.w), r.st)
  {
    hide Plain, Acts, HaltAgree, Make, Issue, Fitting, Exec;
    var r := Plain(env, Acts(e, k, k), s);
    if InLocal(e) {
      var i := Make(MOVE, k, Reg(e, k), 0, 0);
      PlainJoin(env, Acts(e, k, k), [Snooze] + Issue(i, k), s);
      if a.Got? {
        PlaceHolds(a.p, e, k, k, sure, a.s, r.st);
        MakeIs(MOVE, k, Reg(e, k), 0, 0);
        PlainJoin(env, [Snooze], Issue(i, k), r.st);
        PlainSnooze(env, r.st);
        PlainOne(env, i, k, r.st);
        CopyRuns(env, i, r.st);
      }
    } else {
      assert Acts(e, k, k) + [] == Acts(e, k, k);
    }
  }

  lemma DeclareLogicalRuns<V, W>(env: Env<V, W>, c: Cond, k: nat, sure: bool, m: State<V, W>, s: State<V, W>, fuel: nat)
    requires CondFits(c, k, k, sure) && 1 <= k < 255 && (sure ==> env.watch) && Agree(Range(0, k), m, s)
    ensures Tracks(env, Mean(env, DeclareLogical(c), k, m, fuel), Ev(env, Build(DeclareLogical(c), k), s, fuel), k, k + 1)
  {
    if c.Leaf? {
      DeclareRuns(env, c.e, k, sure, m, s, fuel);
    } else {
      hide Value, Plain, CondCode, Ev, HaltAgree;
      PlainNone(env, s);
      CondRun(env, c, k, k, sure, [], m, s, s, fuel);
    }
  }

  lemma ReturnRuns<V, W>(env: Env<V, W>, e: Expr, k: nat, sure: bool, m: State<V, W>, s: State<V, W>, fuel: nat)
    requires Begins(env, e, k, k, sure, m, s)
    ensures Tracks(env, Mean(env, Return(e), k, m, fuel), Ev(env, Build(Return(e), k), s, fuel), k, k)
  {
    hide Eval, Plain, Acts, Ev, Fitting, Reg, InLocal, Range, Make, Issue, HaltAgree;
    var i := Make(RETURN, 1, Reg(e, k), k, 0);
    var a, r := Eval(env, e, m), Plain(env, Acts(e, k, k), s);
    EvalRun(env, e, k, k, sure, m, s);
    LineIs(env, Acts(e, k, k) + Issue(i, k), s, fuel);
    PlainJoin(env, Acts(e, k, k), Issue(i, k), s);
    if a.Got? {
      PlaceHolds(a.p, e, k, k, sure, a.s, r.st);
      ReturnPlain(env, Reg(e, k), k, r.st);
      SameReturn(env, Range(0, k), Val(a.p, a.s), env.leave(a.s.w));
    }
  }

  lemma ReturnPlain<V, W>(env: Env<V, W>, r: nat, k: nat, s: State<V, W>)
    ensures Plain(env, Issue(Make(RETURN, 1, r, k, 0), k), s) == Stop(Returned(s.regs(r), env.leave(s.w)))
  {
    hide Plain, Issue;
    PlainOne(env, Make(RETURN, 1, r, k, 0), k, s);
  }

  lemma SameReturn<V, W>(env: Env<V, W>, A: set<int>, v: V, w: W)
    ensures HaltAgree(env, A, Returned(v, w), Returned(v, w))
  {
  }

  /** What a test does, in terms of running its acts one by one. */
  lemma TestedIs<V, W>(env: Env<V, W>, test: seq<Item>, r: Byte, s: State<V, W>)
    ensures var p := Plain(env, test, s);
      Tested(env, test, r, s) == if p.Go? then Go(env.isFalse(p.st.regs(r)), p.st) else p
  {
    hide RunLine, Unfused, Exec;
    var jz := Instr(JZ, r, 0, 0, 0);
    FuseSnoc(test, Emit(jz, {}, 0), false, false);
    RunSnoc(env, Unfused(test), jz, s);
    var p := Plain(env, test, s);
    if p.Go? { JzExec(env, jz, p.st); }
  }

  /** A condition is judged by the value of its expression. */
  lemma TestRuns<V, W>(env: Env<V, W>, e: Expr, k: nat, sure: bool, m: State<V, W>, s: State<V, W>)
    requires Begins(env, e, k, k, sure, m, s)
    ensures Judged(env, Holds(env, e, m), Checked(env, Fell(s), Acts(e, k, k), Cast(Reg(e, k))), k)
  {
    hide Eval, Acts, HaltAgree, Fitting, Range, Plain, Tested, Reg, Cast, InLocal;
    EvalRun(env, e, k, k, sure, m, s);
    TestedIs(env, Acts(e, k, k), Cast(Reg(e, k)), s);
    var a, r := Eval(env, e, m), Plain(env, Acts(e, k, k), s);
    if a.Got? {
      PlaceHolds(a.p, e, k, k, sure, a.s, r.st);
      SameByte(Reg(e, k));
    }
  }

  lemma JzExec<V, W>(env: Env<V, W>, jz: Instr, s: State<V, W>)
    requires jz.op == JZ
    ensures Exec(env, jz, s) == Go(env.isFalse(s.regs(jz.a0)), s)
  {
  }

  // ----- every statement -----

  lemma EvIf<V, W>(env: Env<V, W>, test: seq<Item>, r: Byte, thn: Code, s: State<V, W>, fuel: nat)
    ensures var v := Checked(env, Fell(s), test, r);
      Ev(env, If(test, r, thn), s, fuel) ==
        if v.Other? then v.o else if v.No? then Fell(v.s) else Ev(env, thn, v.s, fuel)
  {
    hide Tested;
  }

  lemma EvIfElse<V, W>(env: Env<V, W>, test: seq<Item>, r: Byte, thn: Code, els: Code, s: State<V, W>, fuel: nat)
    ensures var v := Checked(env, Fell(s), test, r);
      Ev(env, IfElse(test, r, thn, els), s, fuel) ==
        if v.Other? then v.o else if v.No? then Ev(env, els, v.s, fuel) else Ev(env, thn, v.s, fuel)
  {
    hide Tested;
  }

  lemma EvWhile<V, W>(env: Env<V, W>, n: nat, test: seq<Item>, r: Byte, body: Code, s: State<V, W>, fuel: nat)
    requires fuel > 0
    ensures var v := Checked(env, Fell(s), test, r);
      Ev(env, While(n, Nil, test, r, body), s, fuel) ==
        if v.Other? then v.o
        else if v.No? then Fell(v.s)
        else
          var u := AfterBody(Ev(env, body, v.s, fuel));
          if u.Other? then u.o else if u.No? then Fell(u.s) else Ev(env, While(n, Nil, test, r, body), u.s, fuel - 1)
  {
    hide Checked, AfterBody, Gen, Flow;
    UnfoldWhile(Plainly(env), n, Nil, test, r, body, false, false, {}, None, s, fuel);
  }

  lemma EvDoWhile<V, W>(env: Env<V, W>, n: nat, test: seq<Item>, r: Byte, body: Code, s: State<V, W>, fuel: nat)
    requires fuel > 0
    ensures var u := AfterBody(Ev(env, body, s, fuel));
      Ev(env, DoWhile(n, body, Nil, test, r), s, fuel) ==
        if u.Other? then u.o
        else if u.No? then Fell(u.s)
        else
          var v := Checked(env, Fell(u.s), test, r);
          if v.Other? then v.o else if v.No? then Fell(v.s) else Ev(env, DoWhile(n, body, Nil, test, r), v.s, fuel - 1)
  {
    hide Checked, AfterBody, Gen, Flow;
    UnfoldDoWhile(Plainly(env), n, body, Nil, test, r, false, false, {}, None, s, fuel);
  }

  lemma EvFor<V, W>(env: Env<V, W>, n: nat, locals: set<int>, test: seq<Item>, r: Byte, incr: seq<Item>, body: Code,
        s: State<V, W>, fuel: nat)
    requires fuel > 0
    ensures var v := Checked(env, Fell(s), test, r);
      Ev(env, For(n, locals, Nil, test, r, incr, body), s, fuel) ==
        if v.Other? then v.o
        else if v.No? then Fell(v.s)
        else
          var u := Incremented(env, AfterBody(Ev(env, body, v.s, fuel)), incr);
          if u.Other? then u.o else if u.No? then Fell(u.s) else Ev(env, For(n, locals, Nil, test, r, incr, body), u.s, fuel - 1)
  {
    hide Checked, AfterBody, Incremented, Gen, Flow;
    UnfoldFor(Plainly(env), n, locals, Nil, test, r, incr, body, false, false, {}, None, s, fuel);
  }

  /** A loop body's outcome decides about the turn alike. */
  lemma TurnsAlike<V, W>(env: Env<V, W>, o: Outcome<V, W>, p: Outcome<V, W>, k: nat, after: nat)
    requires Tracks(env, o, p, k, after) && k <= after
    ensures Judged(env, Turn(o), AfterBody(p), k)
  {
    hide HaltAgree;
    RangeLess(k, after);
  }

  lemma TracksLess<V, W>(env: Env<V, W>, o: Outcome<V, W>, p: Outcome<V, W>, k: nat, after: nat, k': nat, after': nat)
    requires Tracks(env, o, p, k, after) && k' <= k && after' <= after
    ensures Tracks(env, o, p, k', after')
  {
    RangeLess(k', k);
    RangeLess(after', after);
  }

  /** An increment's value is thrown away. */
  lemma IncrRuns<V, W>(env: Env<V, W>, e: Expr, k: nat, sure: bool, m: State<V, W>, u: Verdict<V, W>)
    requires u.Yes? && Begins(env, e, k, k, sure, m, u.s)
    ensures var a, v := Eval(env, e, m), Incremented(env, u, Acts(e, k, k));
      if a.Fails? then v.Other? && v.o.Ended? && HaltAgree(env, Range(0, k), a.h, v.o.h)
      else v.Yes? && Agree(Range(0, k), a.s, v.s)
  {
    hide Eval, Acts, HaltAgree, Fitting, Range, RunLine, Unfused;
    EvalRun(env, e, k, k, sure, m, u.s);
  }

  ghost predicate Starts<V, W>(env: Env<V, W>, st: Stmt, k: nat, sure: bool, inLoop: bool, m: State<V, W>, s: State<V, W>) {
    Fit(st, k, sure, inLoop) && 1 <= k <= 255 && (sure ==> env.watch) && Agree(Range(0, k), m, s)
  }

  /** The structured code of every statement does what the statement means. */
  lemma {:induction false} MeanRun<V, W>(env: Env<V, W>, st: Stmt, k: nat, sure: bool, inLoop: bool, m: State<V, W>,
        s: State<V, W>, fuel: nat)
    requires Starts(env, st, k, sure, inLoop, m, s)
    ensures Tracks(env, Mean(env, st, k, m, fuel), Ev(env, Build(st, k), s, fuel), k, Locals(st, k))
    decreases fuel, st, 1
  {
    match st
    case Empty =>
    case Leave =>
    case Again =>
    case Do(e) => DoRuns(env, e, k, sure, m, s, fuel);
    case Declare(e) => DeclareRuns(env, e, k, sure, m, s, fuel);
    case DeclareLogical(c) => DeclareLogicalRuns(env, c, k, sure, m, s, fuel);
    case Return(e) => ReturnRuns(env, e, k, sure, m, s, fuel);
    case Then(a, b) => ThenRun(env, st, k, sure, inLoop, m, s, fuel);
    case Block(body) =>
      MeanRun(env, body, k, sure, inLoop, m, s, fuel);
      LocalsGrow(body, k, sure, inLoop);
      TracksLess(env, Mean(env, body, k, m, fuel), Ev(env, Build(body, k), s, fuel), k, Locals(body, k), k, k);
    case When(_, _) => BranchRun(env, st, k, sure, inLoop, m, s, fuel);
    case Either(_, _, _) => BranchRun(env, st, k, sure, inLoop, m, s, fuel);
    case Loop(_, _) => LoopRun(env, st, k, sure, inLoop, m, s, fuel);
    case Repeat(_, _) => RepeatRun(env, st, k, sure, inLoop, m, s, fuel);
    case Steps(_, _, _) => StepsRun(env, st, k, sure, inLoop, m, s, fuel);
  }

  lemma {:induction false} ThenRun<V, W>(env: Env<V, W>, st: Stmt, k: nat, sure: bool, inLoop: bool, m: State<V, W>,
        s: State<V, W>, fuel: nat)
    requires st.Then? && Starts(env, st, k, sure, inLoop, m, s)
    ensures Tracks(env, Mean(env, st, k, m, fuel), Ev(env, Build(st, k), s, fuel), k, Locals(st, k))
    decreases fuel, st, 0
  {
    MeanRun(env, st.a, k, sure, inLoop, m, s, fuel);
    LocalsGrow(st.a, k, sure, inLoop);
    var o, p, k' := Mean(env, st.a, k, m, fuel), Ev(env, Build(st.a, k), s, fuel), Locals(st.a, k);
    if o.Fell? {
      MeanRun(env, st.b, k', sure, inLoop, o.s, p.s, fuel);
      TracksLess(env, Mean(env, st.b, k', o.s, fuel), Ev(env, Build(st.b, k'), p.s, fuel), k', Locals(st.b, k'), k, Locals(st.b, k'));
    }
  }

  lemma {:induction false} BranchRun<V, W>(env: Env<V, W>, st: Stmt, k: nat, sure: bool, inLoop: bool, m: State<V, W>,
        s: State<V, W>, fuel: nat)
    requires (st.When? || st.Either?) && Starts(env, st, k, sure, inLoop, m, s)
    ensures Tracks(env, Mean(env, st, k, m, fuel), Ev(env, Build(st, k), s, fuel), k, k)
    decreases fuel, st, 0
  {
    hide Ev, Holds, Checked, HaltAgree, Range, Fitting, Acts, Reg, Cast;
    var test, r := Acts(st.e, k, k), Cast(Reg(st.e, k));
    TestRuns(env, st.e, k, sure, m, s);
    var v, u := Holds(env, st.e, m), Checked(env, Fell(s), test, r);
    match st
    case When(_, body) =>
      EvIf(env, test, r, Build(body, k), s, fuel);
      if v.Yes? { NarrowRun(env, body, st, k, sure, inLoop, v.s, u.s, fuel); }
    case Either(_, a, b) =>
      EvIfElse(env, test, r, Build(a, k), Build(b, k), s, fuel);
      if v.Yes? { NarrowRun(env, a, st, k, sure, inLoop, v.s, u.s, fuel); }
      if v.No? { NarrowRun(env, b, st, k, sure, inLoop, v.s, u.s, fuel); }
  }

  /** A part of a statement, as seen from outside its scope. */
  lemma {:induction false} NarrowRun<V, W>(env: Env<V, W>, part: Stmt, st: Stmt, k: nat, sure: bool, inLoop: bool,
        m: State<V, W>, s: State<V, W>, fuel: nat)
    requires (st.When? && part == st.body) || (st.Either? && (part == st.a || part == st.b)) || (st.Loop? && part == st.body)
      || (st.Repeat? && part == st.body) || (st.Steps? && part == st.body)
    requires Starts(env, part, k, sure, inLoop, m, s)
    ensures Tracks(env, Mean(env, part, k, m, fuel), Ev(env, Build(part, k), s, fuel), k, k)
    decreases fuel, part, 2
  {
    hide Mean, Ev, HaltAgree, Range;
    MeanRun(env, part, k, sure, inLoop, m, s, fuel);
    LocalsGrow(part, k, sure, inLoop);
    TracksLess(env, Mean(env, part, k, m, fuel), Ev(env, Build(part, k), s, fuel), k, Locals(part, k), k, k);
  }

  lemma {:induction false} LoopRun<V, W>(env: Env<V, W>, st: Stmt, k: nat, sure: bool, inLoop: bool, m: State<V, W>,
        s: State<V, W>, fuel: nat)
    requires st.Loop? && Starts(env, st, k, sure, inLoop, m, s)
    ensures Tracks(env, Mean(env, st, k, m, fuel), Ev(env, Build(st, k), s, fuel), k, k)
    decreases fuel, st, 0
  {
    hide Ev, Holds, Checked, HaltAgree, Range, Fitting, Acts, Reg, Cast, Turn, AfterBody;
    var test, r, body := Acts(st.e, k, k), Cast(Reg(st.e, k)), Build(st.body, k);
    if fuel == 0 {
      NoFuel(env, st, k, s);
    } else {
      EvWhile(env, k, test, r, body, s, fuel);
      TestRuns(env, st.e, k, sure, m, s);
      var v, u := Holds(env, st.e, m), Checked(env, Fell(s), test, r);
      if v.Yes? {
        NarrowRun(env, st.body, st, k, sure, true, v.s, u.s, fuel);
        var o, p := Mean(env, st.body, k, v.s, fuel), Ev(env, body, u.s, fuel);
        TurnsAlike(env, o, p, k, k);
        var v', u' := Turn(o), AfterBody(p);
        if v'.Yes? { MeanRun(env, st, k, sure, inLoop, v'.s, u'.s, fuel - 1); }
      }
    }
  }

  lemma {:induction false} RepeatRun<V, W>(env: Env<V, W>, st: Stmt, k: nat, sure: bool, inLoop: bool, m: State<V, W>,
        s: State<V, W>, fuel: nat)
    requires st.Repeat? && Starts(env, st, k, sure, inLoop, m, s)
    ensures Tracks(env, Mean(env, st, k, m, fuel), Ev(env, Build(st, k), s, fuel), k, k)
    decreases fuel, st, 0
  {
    hide Ev, Holds, Checked, HaltAgree, Range, Fitting, Acts, Reg, Cast, Turn, AfterBody;
    var test, r, body := Acts(st.e, k, k), Cast(Reg(st.e, k)), Build(st.body, k);
    if fuel == 0 {
      NoFuel(env, st, k, s);
    } else {
      EvDoWhile(env, k, test, r, body, s, fuel);
      NarrowRun(env, st.body, st, k, sure, true, m, s, fuel);
      var o, p := Mean(env, st.body, k, m, fuel), Ev(env, body, s, fuel);
      TurnsAlike(env, o, p, k, k);
      var v, u := Turn(o), AfterBody(p);
      if v.Yes? {
        TestRuns(env, st.e, k, sure, v.s, u.s);
        var v', u' := Holds(env, st.e, v.s), Checked(env, Fell(u.s), test, r);
        if v'.Yes? { MeanRun(env, st, k, sure, inLoop, v'.s, u'.s, fuel - 1); }
      }
    }
  }

  lemma {:induction false} StepsRun<V, W>(env: Env<V, W>, st: Stmt, k: nat, sure: bool, inLoop: bool, m: State<V, W>,
        s: State<V, W>, fuel: nat)
    requires st.Steps? && Starts(env, st, k, sure, inLoop, m, s)
    ensures Tracks(env, Mean(env, st, k, m, fuel), Ev(env, Build(st, k), s, fuel), k, k)
    decreases fuel, st, 0
  {
    hide Ev, Holds, Checked, HaltAgree, Range, Fitting, Acts, Reg, Cast, Turn, AfterBody, Incremented, Eval;
    var test, r, incr, body := Acts(st.e, k, k), Cast(Reg(st.e, k)), Acts(st.incr, k, k), Build(st.body, k);
    if fuel == 0 {
      NoFuel(env, st, k, s);
    } else {
      EvFor(env, k, Range(0, k), test, r, incr, body, s, fuel);
      TestRuns(env, st.e, k, sure, m, s);
      var v, u := Holds(env, st.e, m), Checked(env, Fell(s), test, r);
      if v.Yes? {
        NarrowRun(env, st.body, st, k, sure, true, v.s, u.s, fuel);
        var o, p := Mean(env, st.body, k, v.s, fuel), Ev(env, body, u.s, fuel);
        TurnsAlike(env, o, p, k, k);
        var v', u' := Turn(o), AfterBody(p);
        if v'.Yes? {
          IncrRuns(env, st.incr, k, sure, v'.s, u');
          var a, w := Eval(env, st.incr, v'.s), Incremented(env, u', incr);
          if a.Got? { MeanRun(env, st, k, sure, inLoop, a.s, w.s, fuel - 1); }
        } else {
          NotIncremented(env, u', incr);
        }
      }
    }
  }

  lemma NotIncremented<V, W>(env: Env<V, W>, u: Verdict<V, W>, incr: seq<Item>)
    requires !u.Yes?
    ensures Incremented(env, u, incr) == u
  {
  }

  lemma NoFuel<V, W>(env: Env<V, W>, st: Stmt, k: nat, s: State<V, W>)
    requires st.Loop? || st.Repeat? || st.Steps?
    ensures Ev(env, Build(st, k), s, 0) == Timeout
  {
  }

  // ----- watched runs -----

  /** No modulo that the program runs fails. */
  ghost predicate NeverSlips<V(!new), W(!new)>(env: Env<V, W>, st: Stmt, k: nat, s: State<V, W>) {
    forall f: nat :: !Slips(Mean(Watched(env), st, k, s, f))
  }

  predicate Slipping<V, W>(a: Ans<V, W>) { a.Fails? && a.h.Slipped? }

  /** As long as no modulo fails, watching changes nothing. */
  lemma {:induction false} EvalWatched<V, W>(env: Env<V, W>, e: Expr, s: State<V, W>)
    requires !env.watch
    ensures !Slipping(Eval(Watched(env), e, s)) ==> Eval(env, e, s) == Eval(Watched(env), e, s)
    decreases e
  {
    match e
    case Local(_) =>
    case GetOuter(_) =>
    case Lit(_, _) =>
    case Null =>
    case Index(o, key) =>
      EvalWatched(env, o, s);
      var a := Eval(Watched(env), o, s);
      if a.Got? { EvalWatched(env, key, a.s); }
    case Bin(_, _, l, r) =>
      EvalWatched(env, l, s);
      var a := Eval(Watched(env), l, s);
      if a.Got? { EvalWatched(env, r, a.s); }
    case AssignLocal(_, v) => EvalWatched(env, v, s);
    case Compound(_, _, v) => EvalWatched(env, v, s);
    case AssignOuter(_, v) => EvalWatched(env, v, s);
    case SetSlot(_, o, key, v) =>
      EvalWatched(env, o, s);
      var a := Eval(Watched(env), o, s);
      if a.Got? {
        EvalWatched(env, key, a.s);
        var b := Eval(Watched(env), key, a.s);
        if b.Got? { EvalWatched(env, v, b.s); }
      }
    case Call(f, args) =>
      EvalWatched(env, f, s);
      var a := Eval(Watched(env), f, s);
      if a.Got? { ArgsWatched(env, args, [a.s.regs(0)], a.s); }
    case Method(o, key, args) =>
      EvalWatched(env, o, s);
      var a := Eval(Watched(env), o, s);
      if a.Got? {
        EvalWatched(env, key, a.s);
        var b := Eval(Watched(env), key, a.s);
        if b.Got? {
          var out := env.getSlot(b.s.w, Val(a.p, b.s), Val(b.p, b.s), IsThis(a.p));
          if out.Ok? { ArgsWatched(env, args, [Val(a.p, b.s)], State(b.s.regs, out.w)); }
        }
      }
    case Comma(x, y) =>
      EvalWatched(env, x, s);
      var a := Eval(Watched(env), x, s);
      if a.Got? { EvalWatched(env, y, a.s); }
  }

  lemma {:induction false} ArgsWatched<V, W>(env: Env<V, W>, args: Args, done: seq<V>, s: State<V, W>)
    requires !env.watch
    ensures var a := EvalArgs(Watched(env), args, done, s);
      !(a.Stops? && a.h.Slipped?) ==> EvalArgs(env, args, done, s) == a
    decreases args
  {
    if args.More? {
      EvalWatched(env, args.arg, s);
      var a := Eval(Watched(env), args.arg, s);
      if a.Got? { ArgsWatched(env, args.rest, done + [Val(a.p, a.s)], a.s); }
    }
  }

  lemma HoldsWatched<V, W>(env: Env<V, W>, e: Expr, s: State<V, W>)
    requires !env.watch
    ensures var v := Holds(Watched(env), e, s); !(v.Other? && Slips(v.o)) ==> Holds(env, e, s) == v
  {
    hide Eval;
    EvalWatched(env, e, s);
  }

  lemma {:induction false} ValueWatched<V, W>(env: Env<V, W>, c: Cond, s: State<V, W>)
    requires !env.watch && !(Value(Watched(env), c, s).Fails? && Value(Watched(env), c, s).h.Slipped?)
    ensures Value(env, c, s) == Value(Watched(env), c, s)
    decreases c
  {
    hide Eval;
    if c.Leaf? {
      EvalWatched(env, c.e, s);
    } else {
      var l, r := c.l, c.r;
      ValueWatched(env, l, s);
      var a := Value(env, l, s);
      if a.Got? && env.isFalse(Val(a.p, a.s)) != c.And? { ValueWatched(env, r, a.s); }
    }
  }

  lemma {:induction false} MeanWatched<V, W>(env: Env<V, W>, st: Stmt, k: nat, s: State<V, W>, fuel: nat)
    requires !env.watch && !Slips(Mean(Watched(env), st, k, s, fuel))
    ensures Mean(env, st, k, s, fuel) == Mean(Watched(env), st, k, s, fuel)
    decreases fuel, st, 1
  {
    hide Eval, Holds;
    match st
    case Empty =>
    case Leave =>
    case Again =>
    case Do(e) => EvalWatched(env, e, s);
    case Declare(e) => EvalWatched(env, e, s);
    case DeclareLogical(c) => ValueWatched(env, c, s);
    case Return(e) => EvalWatched(env, e, s);
    case Then(a, b) =>
      MeanWatched(env, a, k, s, fuel);
      var o := Mean(env, a, k, s, fuel);
      if o.Fell? { MeanWatched(env, b, Locals(a, k), o.s, fuel); }
    case Block(body) => MeanWatched(env, body, k, s, fuel);
    case When(e, body) =>
      HoldsWatched(env, e, s);
      var v := Holds(env, e, s);
      if v.Yes? { MeanWatched(env, body, k, v.s, fuel); }
    case Either(e, a, b) =>
      HoldsWatched(env, e, s);
      var v := Holds(env, e, s);
      if v.Yes? { MeanWatched(env, a, k, v.s, fuel); }
      if v.No? { MeanWatched(env, b, k, v.s, fuel); }
    case Loop(_, _) => if fuel > 0 { LoopWatched(env, st, k, s, fuel); }
    case Repeat(_, _) => if fuel > 0 { LoopWatched(env, st, k, s, fuel); }
    case Steps(_, _, _) => if fuel > 0 { StepsWatched(env, st, k, s, fuel); }
  }

  lemma {:induction false} LoopWatched<V, W>(env: Env<V, W>, st: Stmt, k: nat, s: State<V, W>, fuel: nat)
    requires (st.Loop? || st.Repeat?) && fuel > 0 && !env.watch && !Slips(Mean(Watched(env), st, k, s, fuel))
    ensures Mean(env, st, k, s, fuel) == Mean(Watched(env), st, k, s, fuel)
    decreases fuel, st, 0
  {
    hide Eval, Holds;
    match st
    case Loop(e, body) =>
      HoldsWatched(env, e, s);
      var v := Holds(env, e, s);
      if v.Yes? {
        MeanWatched(env, body, k, v.s, fuel);
        var u := Turn(Mean(env, body, k, v.s, fuel));
        if u.Yes? { MeanWatched(env, st, k, u.s, fuel - 1); }
      }
    case Repeat(body, e) =>
      MeanWatched(env, body, k, s, fuel);
      var u := Turn(Mean(env, body, k, s, fuel));
      if u.Yes? {
        HoldsWatched(env, e, u.s);
        var v := Holds(env, e, u.s);
        if v.Yes? { MeanWatched(env, st, k, v.s, fuel - 1); }
      }
  }

  lemma {:induction false} StepsWatched<V, W>(env: Env<V, W>, st: Stmt, k: nat, s: State<V, W>, fuel: nat)
    requires st.Steps? && fuel > 0 && !env.watch && !Slips(Mean(Watched(env), st, k, s, fuel))
    ensures Mean(env, st, k, s, fuel) == Mean(Watched(env), st, k, s, fuel)
    decreases fuel, st, 0
  {
    hide Eval, Holds;
    HoldsWatched(env, st.e, s);
    var v := Holds(env, st.e, s);
    if v.Yes? {
      MeanWatched(env, st.body, k, v.s, fuel);
      var u := Turn(Mean(env, st.body, k, v.s, fuel));
      if u.Yes? {
        EvalWatched(env, st.incr, u.s);
        var a := Eval(env, st.incr, u.s);
        if a.Got? { MeanWatched(env, st, k, a.s, fuel - 1); }
      }
    }
  }

  /** For the environment as it is: the structured code does what the program means, as long as the discipline
      counts on modulos only where none fails. */
  lemma MeanTracked<V(!new), W(!new)>(env: Env<V, W>, st: Stmt, k: nat, sure: bool, s: State<V, W>, f: nat)
    requires Fit(st, k, sure, false) && 1 <= k <= 255 && !env.watch && (sure ==> NeverSlips(env, st, k, s))
    ensures Tracks(env, Mean(env, st, k, s, f), Ev(env, Build(st, k), s, f), k, Locals(st, k))
    ensures sure ==> !Slips(Ev(Watched(env), Build(st, k), s, f))
  {
    hide Mean, Ev, Fit, Build, Locals;
    if sure {
      MeanRun(Watched(env), st, k, true, false, s, s, f);
      MeanWatched(env, st, k, s, f);
      TracksSlips(Watched(env), Mean(Watched(env), st, k, s, f), Ev(Watched(env), Build(st, k), s, f), k, Locals(st, k));
      EvWatched(env, Build(st, k), s, f);
    } else {
      MeanRun(env, st, k, false, false, s, s, f);
    }
  }

  lemma TracksSlips<V, W>(env: Env<V, W>, o: Outcome<V, W>, p: Outcome<V, W>, k: nat, after: nat)
    requires Tracks(env, o, p, k, after) && !Slips(o)
    ensures !Slips(p)
  {
  }

  // ----- whole functions -----

  /** The machine's run of `prog` from t finishes exactly when the program does from s, and whenever both
      finish, they finish in the same way, with the same world and the same variables. */
  ghost predicate Implements<V(!new), W(!new)>(env: Env<V, W>, st: Stmt, k: nat, prog: seq<Instr>, pact: Pact,
        s: State<V, W>, t: State<V, W>) {
    && ((exists f: nat :: Mean(env, st, k, s, f) != Timeout) <==> (exists n: nat :: Compiler.Final(Run(env, prog, At(0, t), n), |prog|)))
    && forall f: nat, n: nat :: Mean(env, st, k, s, f) != Timeout && Compiler.Final(Run(env, prog, At(0, t), n), |prog|) ==>
         Compiler.Same(env, Range(0, Locals(st, k)), pact, Mean(env, st, k, s, f), Run(env, prog, At(0, t), n), |prog|)
  }

  /** Compile a program and run it.  For every program whose registers fit and which is sound, every lawful environment
      and every start, the code the compiler emits does what the program means.  The discipline may count on
      modulos in expressions only where none fails. */
  method CompileProgram<V(!new), W(!new)>(st: Stmt, k: nat, parent: bool, ghost env: Env<V, W>, ghost pact: Pact,
        ghost s: State<V, W>, ghost t: State<V, W>)
    returns (code: seq<Instr>)
    requires 1 <= k <= 255 && pact.keep <= Range(0, k) && Fit(st, k, pact.sure, false) && Sound(st, k, false, parent, true, pact)
    requires Lawful(env) && !env.watch && Agree(Range(0, k), s, t) && (pact.sure ==> NeverSlips(env, st, k, s))
    ensures Implements(env, st, k, code, pact, s, t)
  {
    hide Fit, Sound, Lawful, Compiler.Faithful, Implements, Build, Locals, Mean, Ev, Tracks;
    forall f: nat
      ensures Tracks(env, Mean(env, st, k, s, f), Ev(env, Build(st, k), s, f), k, Locals(st, k))
      ensures pact.sure ==> !Slips(Ev(Watched(env), Build(st, k), s, f))
    {
      MeanTracked(env, st, k, pact.sure, s, f);
    }
    code := CompileStructured(st, k, parent, env, pact, s, t);
    MeansSame(env, st, k, code, pact, s, t);
  }

  lemma MeansSame<V(!new), W(!new)>(env: Env<V, W>, st: Stmt, k: nat, prog: seq<Instr>, pact: Pact, s: State<V, W>, t: State<V, W>)
    requires pact.keep <= Range(0, k) && Compiler.Faithful(env, Build(st, k), prog, Range(0, Locals(st, k)), pact, s, t)
    requires forall f: nat :: Tracks(env, Mean(env, st, k, s, f), Ev(env, Build(st, k), s, f), k, Locals(st, k))
    ensures Implements(env, st, k, prog, pact, s, t)
  {
    hide Mean, Ev, Run, Build, Locals, Tracks, Compiler.Same, Compiler.Final;
    forall f: nat ensures Mean(env, st, k, s, f) == Timeout <==> Ev(env, Build(st, k), s, f) == Timeout {
      TracksTimeout(env, Mean(env, st, k, s, f), Ev(env, Build(st, k), s, f), k, Locals(st, k));
    }
    forall f: nat, n: nat | Mean(env, st, k, s, f) != Timeout && Compiler.Final(Run(env, prog, At(0, t), n), |prog|)
      ensures Compiler.Same(env, Range(0, Locals(st, k)), pact, Mean(env, st, k, s, f), Run(env, prog, At(0, t), n), |prog|)
    {
      SameThrough(env, Mean(env, st, k, s, f), Ev(env, Build(st, k), s, f), k, Locals(st, k), pact, Run(env, prog, At(0, t), n), |prog|);
    }
  }

  lemma TracksTimeout<V, W>(env: Env<V, W>, o: Outcome<V, W>, p: Outcome<V, W>, k: nat, after: nat)
    requires Tracks(env, o, p, k, after)
    ensures o == Timeout <==> p == Timeout
  {
  }

  lemma SameThrough<V, W>(env: Env<V, W>, o: Outcome<V, W>, p: Outcome<V, W>, k: nat, after: nat, pact: Pact, cfg: Config<V, W>, size: int)
    requires Tracks(env, o, p, k, after) && pact.keep <= Range(0, k) && Compiler.Same(env, Range(0, after), pact, p, cfg, size)
    ensures Compiler.Same(env, Range(0, after), pact, o, cfg, size)
  {
  }
}
