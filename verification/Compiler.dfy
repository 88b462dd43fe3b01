/** Whole functions: the generated code terminates exactly when the source does,
    with the same result; and the programs the code generator gets wrong. */
module Compiler {
  import opened Common
  import opened Bytecode
  import opened Peephole
  import opened Codegen
  import opened Simulation
  import opened Watch

  /** The instructions of a function body; there is no loop around it, so no hole is left. */
  function Program(c: Code, parent: bool): seq<Instr> {
    var cells := Gen(c, false, parent, true);
    seq(|cells|, i requires 0 <= i < |cells| => Resolved(cells[i], i, 0, 0))
  }

  /** The frame has ended, or the machine is past the code. */
  predicate Final<V, W>(cfg: Config<V, W>, size: int) {
    cfg.End? || !(0 <= cfg.pc < size)
  }

  ghost predicate Same<V, W>(env: Env<V, W>, A: set<int>, pact: Pact, o: Outcome<V, W>, cfg: Config<V, W>, size: int) {
    match o
    case Fell(s) => cfg.At? && cfg.pc == size && Agree(A, s, cfg.st)
    case Ended(h) => cfg.End? && HaltAgree(env, pact.keep, h, cfg.h)
    case _ => false
  }

  // ----- the meaning does not depend on the fuel -----

  lemma {:induction false} EvMore<V, W>(env: Env<V, W>, c: Code, s: State<V, W>, f: nat, g: nat)
    requires f <= g && Ev(env, c, s, f) != Timeout
    ensures Ev(env, c, s, g) == Ev(env, c, s, f)
    decreases f, c
  {
    match c
    case Nil =>
    case Line(_) =>
    case Break =>
    case Continue =>
    case Seq(a, b) =>
      EvMore(env, a, s, f, g);
      var o := Ev(env, a, s, f);
      if o.Fell? { EvMore(env, b, o.s, f, g); }
    case If(test, r, thn) =>
      var res := Tested(env, test, r, s);
      if res.Go? && !res.jump { EvMore(env, thn, res.st, f, g); }
    case IfElse(test, r, thn, els) =>
      var res := Tested(env, test, r, s);
      if res.Go? { EvMore(env, if res.jump then els else thn, res.st, f, g); }
    case Logic(isAnd, _, f', rest) =>
      if env.isFalse(s.regs(f')) != isAnd { EvMore(env, rest, s, f, g); }
    case While(_, _, _, _, _) => WhileMore(env, c, s, f, g);
    case DoWhile(_, _, _, _, _) => DoWhileMore(env, c, s, f, g);
    case For(_, _, _, _, _, _, _) => ForMore(env, c, s, f, g);
    case Forever(_, _, _, _) => ForeverMore(env, c, s, f, g);
  }

  lemma {:induction false} WhileMore<V, W>(env: Env<V, W>, c: Code, s: State<V, W>, f: nat, g: nat)
    requires c.While? && f <= g && Ev(env, c, s, f) != Timeout
    ensures Ev(env, c, s, g) == Ev(env, c, s, f)
    decreases f, c, 0
  {
    hide Ev, Gen, Flow, RunLine, Tested;
    var m := Setting(env, [], false, Pact({}, false));
    UnfoldWhile(m, c.n, c.pre, c.test, c.r, c.body, false, false, {}, None, s, f);
    UnfoldWhile(m, c.n, c.pre, c.test, c.r, c.body, false, false, {}, None, s, g);
    EvMore(env, c.pre, s, f, g);
    var v := Checked(env, Ev(env, c.pre, s, f), c.test, c.r);
    if v.Yes? {
      EvMore(env, c.body, v.s, f, g);
      var v' := AfterBody(Ev(env, c.body, v.s, f));
      if v'.Yes? { EvMore(env, c, v'.s, f - 1, g - 1); }
    }
  }

  lemma {:induction false} DoWhileMore<V, W>(env: Env<V, W>, c: Code, s: State<V, W>, f: nat, g: nat)
    requires c.DoWhile? && f <= g && Ev(env, c, s, f) != Timeout
    ensures Ev(env, c, s, g) == Ev(env, c, s, f)
    decreases f, c, 0
  {
    hide Ev, Gen, Flow, RunLine, Tested;
    var m := Setting(env, [], false, Pact({}, false));
    UnfoldDoWhile(m, c.n, c.body, c.pre, c.test, c.r, false, false, {}, None, s, f);
    UnfoldDoWhile(m, c.n, c.body, c.pre, c.test, c.r, false, false, {}, None, s, g);
    EvMore(env, c.body, s, f, g);
    var v := AfterBody(Ev(env, c.body, s, f));
    if v.Yes? {
      EvMore(env, c.pre, v.s, f, g);
      var v' := Checked(env, Ev(env, c.pre, v.s, f), c.test, c.r);
      if v'.Yes? { EvMore(env, c, v'.s, f - 1, g - 1); }
    }
  }

  lemma {:induction false} ForMore<V, W>(env: Env<V, W>, c: Code, s: State<V, W>, f: nat, g: nat)
    requires c.For? && f <= g && Ev(env, c, s, f) != Timeout
    ensures Ev(env, c, s, g) == Ev(env, c, s, f)
    decreases f, c, 0
  {
    hide Ev, Gen, Flow, RunLine, Tested;
    var m := Setting(env, [], false, Pact({}, false));
    UnfoldFor(m, c.n, c.locals, c.pre, c.test, c.r, c.incr, c.body, false, false, {}, None, s, f);
    UnfoldFor(m, c.n, c.locals, c.pre, c.test, c.r, c.incr, c.body, false, false, {}, None, s, g);
    EvMore(env, c.pre, s, f, g);
    var v := Checked(env, Ev(env, c.pre, s, f), c.test, c.r);
    if v.Yes? {
      EvMore(env, c.body, v.s, f, g);
      var v' := Incremented(env, AfterBody(Ev(env, c.body, v.s, f)), c.incr);
      if v'.Yes? { EvMore(env, c, v'.s, f - 1, g - 1); }
    }
  }

  lemma {:induction false} ForeverMore<V, W>(env: Env<V, W>, c: Code, s: State<V, W>, f: nat, g: nat)
    requires c.Forever? && f <= g && Ev(env, c, s, f) != Timeout
    ensures Ev(env, c, s, g) == Ev(env, c, s, f)
    decreases f, c, 0
  {
    hide Ev, Gen, Flow, RunLine, Tested;
    var m := Setting(env, [], false, Pact({}, false));
    UnfoldForever(m, c.n, c.locals, c.incr, c.body, false, false, {}, None, s, f);
    UnfoldForever(m, c.n, c.locals, c.incr, c.body, false, false, {}, None, s, g);
    EvMore(env, c.body, s, f, g);
    var v := Incremented(env, AfterBody(Ev(env, c.body, s, f)), c.incr);
    if v.Yes? { EvMore(env, c, v.s, f - 1, g - 1); }
  }

  // ----- whole functions -----

  lemma FinalStays<V, W>(env: Env<V, W>, prog: seq<Instr>, cfg: Config<V, W>, k: nat)
    requires Final(cfg, |prog|)
    ensures Run(env, prog, cfg, k) == cfg
    decreases k
  {
    if k > 0 { FinalStays(env, prog, cfg, k - 1); }
  }

  lemma FinalUnique<V, W>(env: Env<V, W>, prog: seq<Instr>, c: Config<V, W>, j: nat, k: nat)
    requires j <= k && Final(Run(env, prog, c, j), |prog|)
    ensures Run(env, prog, c, k) == Run(env, prog, c, j)
  {
    RunPlus(env, prog, c, j, k - j);
    FinalStays(env, prog, Run(env, prog, c, j), k - j);
  }

  /** A run of the source that finishes is a run of the machine that finishes in the same way. */
  lemma SourceToMachine<V(!new), W(!new)>(env: Env<V, W>, c: Code, parent: bool, A: set<int>, pact: Pact,
        s: State<V, W>, t: State<V, W>, f: nat)
    returns (k: nat)
    requires Suits(env, pact) && Agree(A, s, t) && Flow(c, false, parent, true, A, pact, None).Some?
    ensures var prog := Program(c, parent);
      var o, cfg := Ev(env, c, s, f), Run(env, prog, At(0, t), k);
      if o == Timeout then !Final(cfg, |prog|) && k >= f
      else Final(cfg, |prog|) && Same(env, Flow(c, false, parent, true, A, pact, None).value, pact, o, cfg, |prog|)
  {
    hide Ev, Gen, Flow, Run;
    var prog := Program(c, parent);
    var cfg;
    k, cfg := Sim(Setting(env, prog, parent, pact), c, false, true, 0, Exits(0, 0, None), A, s, t, f);
  }

  /** The machine's run of `prog` from t finishes exactly when the source does from s, and whenever
      both finish, they finish in the same way, with the same world and the same registers in X. */
  ghost predicate Faithful<V(!new), W(!new)>(env: Env<V, W>, c: Code, prog: seq<Instr>, X: set<int>, pact: Pact,
        s: State<V, W>, t: State<V, W>) {
    && ((exists f: nat :: Ev(env, c, s, f) != Timeout) <==> (exists k: nat :: Final(Run(env, prog, At(0, t), k), |prog|)))
    && forall f: nat, k: nat :: Ev(env, c, s, f) != Timeout && Final(Run(env, prog, At(0, t), k), |prog|) ==>
         Same(env, X, pact, Ev(env, c, s, f), Run(env, prog, At(0, t), k), |prog|)
  }

  /** For any environment that suits the discipline, watched or not. */
  lemma SuitedRight<V(!new), W(!new)>(env: Env<V, W>, c: Code, parent: bool, A: set<int>, pact: Pact, s: State<V, W>, t: State<V, W>)
    requires Suits(env, pact) && Agree(A, s, t) && Flow(c, false, parent, true, A, pact, None).Some?
    ensures Faithful(env, c, Program(c, parent), Flow(c, false, parent, true, A, pact, None).value, pact, s, t)
  {
    hide Ev, Gen, Flow, Run, Suits, Program, Same;
    var prog := Program(c, parent);
    forall f: nat, k: nat | Ev(env, c, s, f) != Timeout && Final(Run(env, prog, At(0, t), k), |prog|)
      ensures Same(env, Flow(c, false, parent, true, A, pact, None).value, pact, Ev(env, c, s, f), Run(env, prog, At(0, t), k), |prog|)
    {
      var j := SourceToMachine(env, c, parent, A, pact, s, t, f);
      if j <= k { FinalUnique(env, prog, At(0, t), j, k); } else { FinalUnique(env, prog, At(0, t), k, j); }
    }
    if f: nat :| Ev(env, c, s, f) != Timeout {
      var j := SourceToMachine(env, c, parent, A, pact, s, t, f);
    }
    if k: nat :| Final(Run(env, prog, At(0, t), k), |prog|) {
      var j := SourceToMachine(env, c, parent, A, pact, s, t, k + 1);
      if Ev(env, c, s, k + 1) == Timeout {
        FinalUnique(env, prog, At(0, t), k, j);
      }
    }
  }

  /** Every disciplined function body is compiled right: the machine finishes exactly when the source
      does, and whenever both finish, they finish in the same way, with the same world and the
      same variables.  The discipline may count on modulos only in runs in which none fails. */
  lemma CompiledRight<V(!new), W(!new)>(env: Env<V, W>, c: Code, parent: bool, A: set<int>, pact: Pact, s: State<V, W>, t: State<V, W>)
    requires Lawful(env) && !env.watch && Agree(A, s, t) && Flow(c, false, parent, true, A, pact, None).Some?
    requires pact.sure ==> NoSlip(env, c, s)
    ensures Faithful(env, c, Program(c, parent), Flow(c, false, parent, true, A, pact, None).value, pact, s, t)
  {
    hide Ev, Gen, Flow, Run, Lawful, Program, Same, Faithful;
    if !pact.sure {
      SuitedRight(env, c, parent, A, pact, s, t);
    } else {
      WatchedIsLawful(env);
      SuitedRight(Watched(env), c, parent, A, pact, s, t);
      Unwatched(env, c, Program(c, parent), Flow(c, false, parent, true, A, pact, None).value, pact, s, t);
    }
  }

  /** When the watched source never slips, neither does the watched machine, and both run as if unwatched. */
  lemma Unwatched<V(!new), W(!new)>(env: Env<V, W>, c: Code, prog: seq<Instr>, X: set<int>, pact: Pact, s: State<V, W>, t: State<V, W>)
    requires !env.watch && NoSlip(env, c, s) && Faithful(Watched(env), c, prog, X, pact, s, t)
    ensures Faithful(env, c, prog, X, pact, s, t)
  {
    hide Ev, Run;
    var w := Watched(env);
    forall f: nat ensures Ev(env, c, s, f) == Ev(w, c, s, f) { EvWatched(env, c, s, f); }
    forall k: nat ensures Run(env, prog, At(0, t), k) == Run(w, prog, At(0, t), k) {
      NeverSlips(w, c, prog, X, pact, s, t, k);
      RunWatched(env, prog, At(0, t), k);
    }
  }

  lemma NeverSlips<V(!new), W(!new)>(w: Env<V, W>, c: Code, prog: seq<Instr>, X: set<int>, pact: Pact, s: State<V, W>,
        t: State<V, W>, k: nat)
    requires (forall f: nat :: !Slips(Ev(w, c, s, f))) && Faithful(w, c, prog, X, pact, s, t)
    ensures var r := Run(w, prog, At(0, t), k); !(r.End? && r.h.Slipped?)
  {
    hide Ev, Run;
    var r := Run(w, prog, At(0, t), k);
    if f: nat :| Ev(w, c, s, f) != Timeout {
      assert Final(r, |prog|) ==> Same(w, X, pact, Ev(w, c, s, f), r, |prog|);
    } else {
      assert !Final(r, |prog|);
    }
  }

  // ----- what breaks without the discipline -----

  /** An environment over integers in which every operation succeeds. */
  const DEMO: Env<int, int> := Env(
    0, k => k, n => n, n => n, n => n, v => v == 0, (a, b) => a == b,
    (w, o, k, _) => Ok(w, o + k), (w, o, k, v, _) => Ok(w, v), (w, o, k, v) => Ok(w, v), (w, a, v) => Ok(w, v),
    (op, _, w, a, b) => Ok(w, a + b), (op, w, a, b) => Ok(w, if a < b then 1 else 0),
    (w, n) => w, (w, n, v) => v, (w, f, args) => Ok(w, f), (w, q) => 0, f => true, f => true, (w, n) => w, w => w, false)

  function Frame(a: int, b: int, x: int): State<int, int> {
    State(q => if q == 0 then a else if q == 1 then b else if q == 2 then x else 0, 0)
  }

  /** Merging a comparison into the branch after it is right for all environments and states exactly
      when the branch reads the register the comparison writes. */
  lemma BranchMergeExactly(p: Instr, i: Instr)
    requires i.op == JZ && p.op == CMP && 0 <= p.a1 < NONE
    ensures BranchMergeRight(p, i) <==> i.a0 == p.a0
  {
    hide Exec;
    if i.a0 == p.a0 {
      forall env: Env<int, int>, s: State<int, int>
        ensures SameBranch(Then(env, Exec(env, p, s), i), Exec(env, Merge(p, i, {}).value, s))
      {
        MergedBranch(env, false, p, i, {}, {}, s);
      }
    } else {
      BranchMergeFails(p, i);
    }
  }

  /** The comparison is true and the tested register false. */
  lemma BranchMergeFails(p: Instr, i: Instr)
    requires i.op == JZ && p.op == CMP && 0 <= p.a1 < NONE && i.a0 != p.a0
    ensures !BranchMergeRight(p, i)
  {
    var env := DEMO.(cmp := (op, w, a, b) => Ok(w, 1));
    var s := State(q => 0, 0);
    assert Then(env, Exec(env, p, s), i).jump;
    assert !Exec(env, Merge(p, i, {}).value, s).jump;
    assert !SameBranch(Then(env, Exec(env, p, s), i), Exec(env, Merge(p, i, {}).value, s));
  }

  ghost predicate BranchMergeRight(p: Instr, i: Instr)
    requires Merge(p, i, {}).Some?
  {
    forall env: Env<int, int>, s: State<int, int> ::
      SameBranch(Then(env, Exec(env, p, s), i), Exec(env, Merge(p, i, {}).value, s))
  }

  predicate SameBranch<V, W>(x: Res<V, W>, y: Res<V, W>) {
    x.Go? == y.Go? && (x.Go? ==> x.jump == y.jump)
  }

  lemma FuseOne(i: Instr, locals: set<int>, parent: bool)
    ensures Fuse([Emit(i, locals, 0)], false, parent) == Buf([i], true) && Unfused([Emit(i, locals, 0)]) == [i]
  {
    var none: seq<Item> := [];
    assert Fuse(none, false, parent) == Buf([], false) && Unfused(none) == [];
    FuseSnoc(none, Emit(i, locals, 0), false, parent);
    assert none + [Emit(i, locals, 0)] == [Emit(i, locals, 0)];
  }

  lemma RunTwo<V, W>(env: Env<V, W>, p: Instr, i: Instr, s: State<V, W>)
    ensures RunLine(env, [p], s) == Exec(env, p, s)
    ensures RunLine(env, [p, i], s) == Then(env, Exec(env, p, s), i)
  {
    var none: seq<Instr> := [];
    assert RunLine(env, none, s) == Go(false, s);
    RunSnoc(env, none, p, s);
    RunSnoc(env, [p], i, s);
    assert none + [p] == [p] && [p] + [i] == [p, i];
  }

  /** The test of `if (a < b, x)`, with the comparison in temporary t. */
  function CommaTest(a: Byte, b: Byte, t: Byte): seq<Item> { [Emit(Instr(CMP, t, b, a, 3), {a as int, b as int}, 0)] }

  lemma CommaCode(a: Byte, b: Byte, x: Byte, t: Byte)
    requires b < NONE
    ensures TestCode(CommaTest(a, b, t), x, false, true) == [Instr(JCMP, b, 0, a, 3)]
    ensures Unfused(TestItems(CommaTest(a, b, t), x)) == [Instr(CMP, t, b, a, 3), Instr(JZ, x, 0, 0, 0)]
  {
    hide Unfused, Fuse;
    var p, i, f := Instr(CMP, t, b, a, 3), Instr(JZ, x, 0, 0, 0), Instr(JCMP, b, 0, a, 3);
    FuseOne(p, {a as int, b as int}, true);
    FuseSnoc(CommaTest(a, b, t), Emit(i, {}, 0), false, true);
    assert Merge(p, i, {}) == Some(f);
    assert ReplaceLast([p], f) == [f];
  }

  /** When a < b and x is false, the source skips the statement and the optimized code runs it. */
  lemma CommaConditionMiscompiled(a: Byte, b: Byte, x: Byte, t: Byte, s: State<int, int>)
    requires b < NONE && x != t && s.regs(a) < s.regs(b) && s.regs(x) == 0
    ensures var u := Tested(DEMO, CommaTest(a, b, t), x, s);
      var v := RunLine(DEMO, TestCode(CommaTest(a, b, t), x, false, true), s);
      u.Go? && u.jump && v.Go? && !v.jump
  {
    hide TestCode, Unfused, RunLine;
    CommaCode(a, b, x, t);
    RunTwo(DEMO, Instr(CMP, t, b, a, 3), Instr(JZ, x, 0, 0, 0), s);
    RunTwo(DEMO, Instr(JCMP, b, 0, a, 3), Instr(JZ, x, 0, 0, 0), s);
  }

  /** Giving an instruction the target of the move after it is right in every register exactly when
      that is its own target; otherwise its own target must be dead. */
  lemma RetargetExactly(p: Instr, i: Instr)
    requires Retargets(p, i) && i.a1 == p.a0
    ensures RetargetKeepsAll(p, i) <==> i.a0 == p.a0
  {
    if i.a0 != p.a0 {
      var env := DEMO.(lit := k => 1, ofInt := k => 1, ofFloat := k => 1, ofBool := k => 1,
                       getSlot := (w, o, k, n) => Ok(w, 1), arith := (op, n, w, a, b) => Ok(w, 1));
      var s := State(q => 0, 0);
      var x, y := Then(env, Exec(env, p, s), i), Exec(env, p.(a0 := i.a0), s);
      assert x.Go? && y.Go? && x.st.regs(p.a0) == 1 && y.st.regs(p.a0) == 0;
    } else {
      forall env: Env<int, int>, s: State<int, int>
        ensures SameRegisters(Then(env, Exec(env, p, s), i), Exec(env, p.(a0 := i.a0), s)) { }
    }
  }

  ghost predicate RetargetKeepsAll(p: Instr, i: Instr) {
    forall env: Env<int, int>, s: State<int, int> ::
      SameRegisters(Then(env, Exec(env, p, s), i), Exec(env, p.(a0 := i.a0), s))
  }

  ghost predicate SameRegisters<V, W>(x: Res<V, W>, y: Res<V, W>) {
    x.Go? == y.Go? && (x.Go? ==> forall q :: x.st.regs(q) == y.st.regs(q))
  }

  /** Merging a move into a modulo: in any one state the move's target agrees exactly when the modulo
      succeeds or the two registers held the same before. */
  lemma ModuloMergeAt<V, W>(env: Env<V, W>, p: Instr, i: Instr, s: State<V, W>)
    requires p.op == MOD && Retargets(p, i) && i.a0 != p.a0 && !env.watch
    ensures var x, y := Then(env, Exec(env, p, s), i), Exec(env, p.(a0 := i.a0), s);
      && x.Go? && y.Go? && x.st.w == y.st.w
      && (x.st.regs(i.a0) == y.st.regs(i.a0) <==> env.arith(MOD, 0, s.w, s.regs(p.a2), s.regs(p.a1)).Ok? || s.regs(i.a0) == s.regs(p.a0))
  {
  }

  /** In every environment and state the move's target comes out the same. */
  ghost predicate ModuloMergeRight(p: Instr, i: Instr) {
    forall env: Env<int, int>, s: State<int, int> ::
      !env.watch ==> SameIn(i.a0, Then(env, Exec(env, p, s), i), Exec(env, p.(a0 := i.a0), s))
  }

  predicate SameIn<V(==), W>(r: int, x: Res<V, W>, y: Res<V, W>) {
    x.Go? && y.Go? && x.st.regs(r) == y.st.regs(r)
  }

  /** That is so exactly when the move's target is the modulo's. */
  lemma ModuloMergeExactly(p: Instr, i: Instr)
    requires p.op == MOD && Retargets(p, i)
    ensures ModuloMergeRight(p, i) <==> i.a0 == p.a0
  {
    hide Exec;
    if i.a0 == p.a0 {
      forall env: Env<int, int>, s: State<int, int> | !env.watch
        ensures SameIn(i.a0, Then(env, Exec(env, p, s), i), Exec(env, p.(a0 := i.a0), s)) { ModuloSelf(env, p, i, s); }
    } else {
      var env := DEMO.(arith := (op, _, w, a, b) => Err(w, 0));
      var s := State(r => if r == p.a0 then 1 else 0, 0);
      ModuloMergeAt(env, p, i, s);
      assert !SameIn(i.a0, Then(env, Exec(env, p, s), i), Exec(env, p.(a0 := i.a0), s));
    }
  }

  lemma ModuloSelf(env: Env<int, int>, p: Instr, i: Instr, s: State<int, int>)
    requires p.op == MOD && Retargets(p, i) && i.a0 == p.a0 && !env.watch
    ensures SameIn(i.a0, Then(env, Exec(env, p, s), i), Exec(env, p, s))
  {
  }

  /** `x = a % b`, with the modulo in temporary t. */
  function ModuloAssign(a: Byte, b: Byte, x: Byte, t: Byte, locals: set<int>): seq<Item> {
    [Emit(Instr(MOD, t, b, a, 0), locals, 0)] + [Emit(Instr(MOVE, x, t, 0, 0), locals, 0)]
  }

  /** When the modulo fails, as for a zero b, the plain code leaves in x what the temporary held and the
      optimized code leaves x as it was. */
  lemma ModuloMiscompiled<V, W>(env: Env<V, W>, a: Byte, b: Byte, x: Byte, t: Byte, locals: set<int>, s: State<V, W>)
    requires x != t && !env.watch && env.arith(MOD, 0, s.w, s.regs(a), s.regs(b)).Err?
    ensures var items := ModuloAssign(a, b, x, t, locals);
      var plain, opt := RunLine(env, Unfused(items), s), RunLine(env, Fuse(items, false, true).code, s);
      && Fuse(items, false, true).code == [Instr(MOD, x, b, a, 0)]
      && plain.Go? && plain.st.regs(x) == s.regs(t) && opt.Go? && opt.st.regs(x) == s.regs(x)
  {
    hide Fuse, Unfused, RunLine, Act, Exec;
    var p, i := Instr(MOD, t, b, a, 0), Instr(MOVE, x, t, 0, 0);
    FuseOne(p, locals, true);
    FuseSnoc([Emit(p, locals, 0)], Emit(i, locals, 0), false, true);
    MoveFolds(p, x, locals);
    RunTwo(env, p, i, s);
    RunTwo(env, p.(a0 := x), i, s);
    ModuloFails(env, p, s);
    ModuloFails(env, p.(a0 := x), s);
    MoveWrites(env, i, Exec(env, p, s).st);
    assert [p] + [i] == [p, i];
  }

  lemma ModuloFails<V, W>(env: Env<V, W>, p: Instr, s: State<V, W>)
    requires p.op == MOD && !env.watch && env.arith(MOD, 0, s.w, s.regs(p.a2), s.regs(p.a1)).Err?
    ensures Exec(env, p, s).Go? && Exec(env, p, s).st.regs == s.regs
  {
  }

  lemma MoveWrites<V, W>(env: Env<V, W>, i: Instr, s: State<V, W>)
    requires i.op == MOVE
    ensures Exec(env, i, s) == Go(false, State(Upd(s.regs, i.a0, s.regs(i.a1)), s.w))
  {
  }

  /** Turning a call into a tail call gives the same result, in every lawful environment and state, exactly
      when the return reads the register the call writes. */
  lemma TailCallExactly(p: Instr, i: Instr)
    requires p.op == CALL && i.op == RETURN && i.a0 != NONE && i.a1 >= 0
    ensures TailCallRight(p, i) <==> i.a1 == Signed(p.a0)
  {
    hide Exec, Lawful;
    if i.a1 == Signed(p.a0) {
      forall env: Env<int, int>, s: State<int, int> | Lawful(env)
        ensures Follows(env, {}, {}, Then(env, Exec(env, p, s), i), Then(env, Exec(env, p.(op := TAILCALL), s), i))
      {
        TailCallFollows(env, p, i, {}, {}, s);
      }
    } else {
      TailCallFails(p, i);
    }
  }

  /** The call gives one and the returned register is zero. */
  lemma TailCallFails(p: Instr, i: Instr)
    requires p.op == CALL && i.op == RETURN && i.a0 != NONE && i.a1 >= 0 && i.a1 != Signed(p.a0)
    ensures !TailCallRight(p, i)
  {
    var env := DEMO.(call := (w, f, args) => Ok(w, 1));
    var s := State(r => 0, 0);
    hide Exec;
    assert Lawful(env);
    CallLeaves(env, p, i, s, 1);
    assert !Follows(env, {}, {}, Then(env, Exec(env, p, s), i), Then(env, Exec(env, p.(op := TAILCALL), s), i));
  }

  /** A call that gives v, in an environment where leaving a frame changes nothing, and the return behind it. */
  lemma CallLeaves(env: Env<int, int>, p: Instr, i: Instr, s: State<int, int>, v: int)
    requires p.op == CALL && i.op == RETURN && i.a0 != NONE && 0 <= i.a1 != Signed(p.a0)
    requires env.canTail(s.regs(p.a1)) && env.scripted(s.regs(p.a1)) && env.leave(s.w) == s.w
    requires env.call(s.w, s.regs(p.a1), Args(s.regs, p.a2, p.a3)) == Ok(s.w, v)
    ensures Then(env, Exec(env, p, s), i) == Stop(Returned(if i.a1 < p.a2 then s.regs(i.a1) else env.scratch(s.w, i.a1), s.w))
    ensures Exec(env, p.(op := TAILCALL), s) == Stop(Returned(v, s.w))
  {
    CallKeeps(env, p, i.a1, s, v);
    hide Args;
    assert Exec(env, p.(op := TAILCALL), s) == Stop(Returned(v, s.w));
  }

  lemma CallKeeps(env: Env<int, int>, p: Instr, r: int, s: State<int, int>, v: int)
    requires p.op == CALL && 0 <= r != Signed(p.a0) && env.scripted(s.regs(p.a1))
    requires env.call(s.w, s.regs(p.a1), Args(s.regs, p.a2, p.a3)) == Ok(s.w, v)
    ensures var x := Exec(env, p, s);
      x.Go? && x.st.w == s.w && x.st.regs(r) == if r < p.a2 then s.regs(r) else env.scratch(s.w, r)
  {
  }

  ghost predicate TailCallRight(p: Instr, i: Instr) {
    forall env: Env<int, int>, s: State<int, int> :: Lawful(env) ==>
      Follows(env, {}, {}, Then(env, Exec(env, p, s), i), Then(env, Exec(env, p.(op := TAILCALL), s), i))
  }

  /** `return f(1), x` in a nested function: the optimizer makes the call a tail call, and f's result is
      returned instead of x. */
  lemma CommaReturnMiscompiled(before: seq<Instr>, call: Instr, x: Byte, locals: set<int>, retStart: int, s: State<int, int>)
    requires call.op == CALL && x < call.a2 && x as int != Signed(call.a0) && retStart < |before|
    ensures var ret := Instr(RETURN, 1, x, 0, 0);
      && AddInstruction(Buf(before + [call], true), ret, locals, true, retStart).code == before + [call.(op := TAILCALL), ret]
      && Then(DEMO, Exec(DEMO, call, s), ret) == Stop(Returned(s.regs(x), s.w))
      && Then(DEMO, Exec(DEMO, call.(op := TAILCALL), s), ret) == Stop(Returned(s.regs(call.a1), s.w))
  {
    hide Exec;
    var ret := Instr(RETURN, 1, x, 0, 0);
    CallLeaves(DEMO, call, ret, s, s.regs(call.a1));
    assert (before + [call])[..|before|] == before;
    assert (before + [call.(op := TAILCALL)]) + [ret] == before + [call.(op := TAILCALL), ret];
  }

  /** The increment `y = p, x = y`: p computes a value into a temporary. */
  function ChainedIncr(p: Instr, x: Byte, y: Byte, locals: set<int>): seq<Item> {
    [Emit(p, locals, 0)] + [Emit(Instr(MOVE, y, p.a0, 0, 0), locals, 0)] + [Emit(Instr(MOVE, x, y, 0, 0), locals, 0)]
  }

  lemma MoveFolds(p: Instr, y: Byte, locals: set<int>)
    requires Retargetable(p.op)
    ensures Act(Buf([p], true), Emit(Instr(MOVE, y, p.a0, 0, 0), locals, 0), true) == Buf([p.(a0 := y)], false)
  {
    assert ReplaceLast([p], p.(a0 := y)) == [p.(a0 := y)];
  }

  lemma AsleepAppends(p: Instr, i: Instr, locals: set<int>)
    ensures Act(Buf([p], false), Emit(i, locals, 0), true) == Buf([p, i], true)
  {
  }

  lemma ChainedCode(p: Instr, x: Byte, y: Byte, locals: set<int>)
    requires Retargetable(p.op)
    ensures Fuse(ChainedIncr(p, x, y, locals), false, true).code == [p.(a0 := y), Instr(MOVE, x, y, 0, 0)]
    ensures IncrCode(ChainedIncr(p, x, y, locals), locals, true) == [p.(a0 := x)]
  {
    hide Fuse, Act;
    var q, i, j := p.(a0 := y), Instr(MOVE, x, y, 0, 0), Instr(MOVE, y, p.a0, 0, 0);
    FuseOne(p, locals, true);
    FuseSnoc([Emit(p, locals, 0)], Emit(j, locals, 0), false, true);
    MoveFolds(p, y, locals);
    FuseSnoc([Emit(p, locals, 0)] + [Emit(j, locals, 0)], Emit(i, locals, 0), false, true);
    AsleepAppends(q, i, locals);
    FuseOne(q, locals, true);
    FuseSnoc([Emit(q, locals, 0)], Emit(i, locals, 0), false, true);
    MoveFolds(q, x, locals);
    assert ReEmit([q, i], locals) == [Emit(q, locals, 0)] + [Emit(i, locals, 0)];
  }

  /** Emitted once the increment is right; emitted again after the loop body it no longer writes y. */
  lemma ChainedIncrementMiscompiled(a: Byte, b: Byte, x: Byte, y: Byte, t: Byte, locals: set<int>, s: State<int, int>)
    requires x != y
    ensures var incr := ChainedIncr(Instr(ADD, t, b, a, 0), x, y, locals);
      var once := RunLine(DEMO, Fuse(incr, false, true).code, s);
      var again := RunLine(DEMO, IncrCode(incr, locals, true), s);
      once.Go? && again.Go? && once.st.regs(y) == s.regs(a) + s.regs(b) && again.st.regs(y) == s.regs(y)
  {
    hide Fuse, IncrCode, RunLine;
    ChainedCode(Instr(ADD, t, b, a, 0), x, y, locals);
    RunTwo(DEMO, Instr(ADD, y, b, a, 0), Instr(MOVE, x, y, 0, 0), s);
    RunTwo(DEMO, Instr(ADD, x, b, a, 0), Instr(MOVE, x, y, 0, 0), s);
  }

  /** Two pieces of code leave the same registers in every environment, from every state. */
  ghost predicate KeepsRegisters(once: seq<Instr>, again: seq<Instr>) {
    forall env: Env<int, int>, s: State<int, int> :: SameRegisters(RunLine(env, once, s), RunLine(env, again, s))
  }

  /** For every computation a move can be merged into, emitting the chained increment again
      keeps every register if and only if both assignments have the same target. */
  lemma ChainedReEmissionExactly(p: Instr, x: Byte, y: Byte, locals: set<int>)
    requires Retargetable(p.op)
    ensures var incr := ChainedIncr(p, x, y, locals);
      KeepsRegisters(Fuse(incr, false, true).code, IncrCode(incr, locals, true)) <==> x == y
  {
    hide Fuse, IncrCode, RunLine, Exec;
    var q, i, f := p.(a0 := y), Instr(MOVE, x, y, 0, 0), p.(a0 := x);
    ChainedCode(p, x, y, locals);
    forall env: Env<int, int>, s: State<int, int>
      ensures RunLine(env, [q, i], s) == Then(env, Exec(env, q, s), i) && RunLine(env, [f], s) == Exec(env, f, s)
    {
      RunTwo(env, q, i, s);
      RunTwo(env, f, f, s);
    }
    RetargetExactly(q, i);
    assert q.(a0 := i.a0) == f;
    PairKeeps(q, i, f);
  }

  lemma PairKeeps(q: Instr, i: Instr, f: Instr)
    requires f == q.(a0 := i.a0)
    requires forall env: Env<int, int>, s: State<int, int> ::
               RunLine(env, [q, i], s) == Then(env, Exec(env, q, s), i) && RunLine(env, [f], s) == Exec(env, f, s)
    ensures KeepsRegisters([q, i], [f]) <==> RetargetKeepsAll(q, i)
  {
    hide RunLine, Exec, SameRegisters, Then;
    if KeepsRegisters([q, i], [f]) {
      forall env: Env<int, int>, s: State<int, int>
        ensures SameRegisters(Then(env, Exec(env, q, s), i), Exec(env, q.(a0 := i.a0), s))
      {
        assert SameRegisters(RunLine(env, [q, i], s), RunLine(env, [f], s));
      }
    }
    if RetargetKeepsAll(q, i) {
      forall env: Env<int, int>, s: State<int, int> ensures SameRegisters(RunLine(env, [q, i], s), RunLine(env, [f], s)) {
        assert SameRegisters(Then(env, Exec(env, q, s), i), Exec(env, q.(a0 := i.a0), s));
      }
    }
  }

  /** For all straight-line code: emitted again it leaves every register as before when each register a merge
      drops is written once more behind it and not read in between. */
  lemma ReEmissionKeeps<V(!new), W(!new)>(env: Env<V, W>, code: seq<Instr>, locals: set<int>, parent: bool, sure: bool, s: State<V, W>)
    requires Suits(env, Pact({}, sure)) && FlowItems(ReEmit(code, locals), false, parent, ALL, Pact({}, sure)).Some?
    requires ALL <= FlowItems(ReEmit(code, locals), false, parent, ALL, Pact({}, sure)).value
    ensures Follows(env, ALL, {}, RunLine(env, code, s), RunLine(env, Fuse(ReEmit(code, locals), false, parent).code, s))
  {
    hide Fuse, FlowItems, RunLine, Suits, Follows;
    UnfusedReEmit(code, locals);
    FuseFollows(env, ReEmit(code, locals), false, parent, ALL, Pact({}, sure), s, s);
    FollowsLess(env, FlowItems(ReEmit(code, locals), false, parent, ALL, Pact({}, sure)).value, ALL, {}, {},
                RunLine(env, code, s), RunLine(env, Fuse(ReEmit(code, locals), false, parent).code, s));
  }

  /** A merge that drops a register need not lose anything: `y = p, x = y, y = n` emitted again
      merges its first two instructions, and yet every register is kept, unless p is a modulo. */
  lemma DroppedButKept(p: Instr, x: Byte, y: Byte, n: int, locals: set<int>)
    requires Retargetable(p.op) && x != y
    ensures var code := [p.(a0 := y), Instr(MOVE, x, y, 0, 0)] + [Instr(LOADINT, y, n, 0, 0)];
      && y as int in Dropped(p.(a0 := y), Instr(MOVE, x, y, 0, 0), false)
      && Fuse(ReEmit(code, locals), false, true).code == [p.(a0 := x), Instr(LOADINT, y, n, 0, 0)]
      && (KeepsRegisters(code, Fuse(ReEmit(code, locals), false, true).code) <==> p.op != MOD)
  {
    hide Fuse, Act, RunLine;
    var q, i, f, l := p.(a0 := y), Instr(MOVE, x, y, 0, 0), p.(a0 := x), Instr(LOADINT, y, n, 0, 0);
    var code := [q, i] + [l];
    var two := [Emit(q, locals, 0)] + [Emit(i, locals, 0)];
    FuseOne(q, locals, true);
    FuseSnoc([Emit(q, locals, 0)], Emit(i, locals, 0), false, true);
    MoveFolds(q, x, locals);
    FuseSnoc(two, Emit(l, locals, 0), false, true);
    AsleepAppends(f, l, locals);
    assert ReEmit(code, locals) == two + [Emit(l, locals, 0)];
    ThreeKeep(q, i, f, l);
  }

  lemma ThreeKeep(q: Instr, i: Instr, f: Instr, l: Instr)
    requires Retargets(q, i) && f == q.(a0 := i.a0) && l.op == LOADINT && l.a0 == q.a0 && q.a0 != i.a0
    ensures KeepsRegisters([q, i] + [l], [f, l]) <==> q.op != MOD
  {
    hide RunLine, Exec, SameRegisters, Then;
    if q.op == MOD {
      var env := DEMO.(arith := (op, _, w, a, b) => Err(w, 0));
      var s := State(r => if r == q.a0 then 1 else 0, 0);
      OverwrittenModulo(env, q, i, f, l, s);
      RunThree(env, q, i, f, l, s);
      assert !SameRegisters(RunLine(env, [q, i] + [l], s), RunLine(env, [f, l], s));
    } else {
      forall env: Env<int, int>, s: State<int, int> ensures SameRegisters(RunLine(env, [q, i] + [l], s), RunLine(env, [f, l], s)) {
        RunThree(env, q, i, f, l, s);
        Overwritten(env, q, i, f, l, s);
      }
    }
  }

  lemma RunThree(env: Env<int, int>, q: Instr, i: Instr, f: Instr, l: Instr, s: State<int, int>)
    ensures RunLine(env, [q, i] + [l], s) == Then(env, Then(env, Exec(env, q, s), i), l)
    ensures RunLine(env, [f, l], s) == Then(env, Exec(env, f, s), l)
  {
    hide RunLine, Exec;
    RunTwo(env, q, i, s);
    RunTwo(env, f, l, s);
    RunSnoc(env, [q, i], l, s);
  }

  lemma Overwritten(env: Env<int, int>, q: Instr, i: Instr, f: Instr, l: Instr, s: State<int, int>)
    requires Retargets(q, i) && f == q.(a0 := i.a0) && l.op == LOADINT && l.a0 == q.a0 && q.op != MOD
    ensures SameRegisters(Then(env, Then(env, Exec(env, q, s), i), l), Then(env, Exec(env, f, s), l))
  {
    hide Exec;
    Retargeted(env, q, i, f, s);
    LoadHides(env, l, Then(env, Exec(env, q, s), i), Exec(env, f, s));
  }

  lemma Retargeted(env: Env<int, int>, q: Instr, i: Instr, f: Instr, s: State<int, int>)
    requires Retargets(q, i) && f == q.(a0 := i.a0) && q.op != MOD
    ensures var x, y := Then(env, Exec(env, q, s), i), Exec(env, f, s);
      x.Go? == y.Go? && (x.Go? ==> forall r :: r != q.a0 ==> x.st.regs(r) == y.st.regs(r))
  {
  }

  lemma LoadHides(env: Env<int, int>, l: Instr, x: Res<int, int>, y: Res<int, int>)
    requires l.op == LOADINT && x.Go? == y.Go? && (x.Go? ==> forall r :: r != l.a0 ==> x.st.regs(r) == y.st.regs(r))
    ensures SameRegisters(Then(env, x, l), Then(env, y, l))
  {
  }

  lemma OverwrittenModulo(env: Env<int, int>, q: Instr, i: Instr, f: Instr, l: Instr, s: State<int, int>)
    requires Retargets(q, i) && f == q.(a0 := i.a0) && l.op == LOADINT && l.a0 == q.a0 && q.op == MOD && q.a0 != i.a0
    requires !env.watch && env.arith(MOD, 0, s.w, s.regs(q.a2), s.regs(q.a1)).Err? && s.regs(q.a0) != s.regs(i.a0)
    ensures !SameRegisters(Then(env, Then(env, Exec(env, q, s), i), l), Then(env, Exec(env, f, s), l))
  {
    hide Exec;
    ModuloFails(env, q, s);
    ModuloFails(env, f, s);
    MoveWrites(env, i, Exec(env, q, s).st);
    LoadSpares(env, l, Then(env, Exec(env, q, s), i), i.a0);
    LoadSpares(env, l, Exec(env, f, s), i.a0);
  }

  lemma LoadSpares(env: Env<int, int>, l: Instr, x: Res<int, int>, r: int)
    requires l.op == LOADINT && l.a0 != r && x.Go?
    ensures Then(env, x, l).Go? && Then(env, x, l).st.regs(r) == x.st.regs(r)
  {
  }

  /** A for loop whose test is the first instruction of the function never leaves through its test:
      whatever the value of the test, the machine goes on to the body. */
  lemma UnpatchedTestIgnored<V, W>(env: Env<V, W>, test: seq<Item>, r: Byte, parent: bool, body: seq<Cell>,
        I: seq<Instr>, prog: seq<Instr>, t: State<V, W>)
    requires StraightItems(test) && |TestCode(test, r, false, parent)| == 1
    requires Fits(prog, 0, LayFor(true, [], TestCode(test, r, false, parent), body, I), 0, 0)
    ensures var cfg := Run(env, prog, At(0, t), 1);
      cfg.At? ==> cfg.pc == 1
  {
    hide Fuse, Exec, LayForever, TestCode, Run, Step, Fits;
    UnpatchedLayout(test, r, parent, body, I, prog);
    UnpatchedStep(env, prog, t);
  }

  /** The jump of the test stands at instruction zero with offset zero. */
  lemma UnpatchedLayout(test: seq<Item>, r: Byte, parent: bool, body: seq<Cell>, I: seq<Instr>, prog: seq<Instr>)
    requires |TestCode(test, r, false, parent)| == 1
    requires Fits(prog, 0, LayFor(true, [], TestCode(test, r, false, parent), body, I), 0, 0)
    ensures |prog| > 0 && prog[0].a1 == 0
  {
    hide Fuse, LayForever, TestCode;
    var T := TestCode(test, r, false, parent);
    TestOffset(test, r, false, parent);
    var rest := LayForever(body, I, 1);
    assert [] + (Cells(T) + rest) == Cells(T) + rest;
    FitsSplit(prog, 0, Cells(T), rest, 0, 0);
    FitsCells(prog, 0, T, 0, 0);
    assert prog[0] == prog[0..1][0] == T[0];
  }

  /** An instruction with offset zero goes on to the next one, whether it jumps or not. */
  lemma UnpatchedStep<V, W>(env: Env<V, W>, prog: seq<Instr>, t: State<V, W>)
    requires |prog| > 0 && prog[0].a1 == 0
    ensures Run(env, prog, At(0, t), 1).At? ==> Run(env, prog, At(0, t), 1).pc == 1
  {
    hide Exec, Run;
    RunOne(env, prog, At(0, t));
  }

  lemma TestOffset(test: seq<Item>, r: Byte, opt: bool, parent: bool)
    ensures Last(TestCode(test, r, opt, parent)).a1 == 0
  {
    var items := TestItems(test, r);
    assert items[..|items| - 1] == test;
  }

  /** `for (; x; ) ;` at the start of a function. */
  function EmptyFor(x: Byte): Code { For(x as nat + 1, {x as int}, Nil, [], x, [], Nil) }

  /** With x false the source falls through at once and the machine never gets out of the loop. */
  lemma FirstTestMiscompiled(x: Byte, s: State<int, int>, k: nat)
    requires s.regs(x) == 0
    ensures Ev(DEMO, EmptyFor(x), s, 1) == Fell(s)
    ensures var prog := Program(EmptyFor(x), true);
      !Final(Run(DEMO, prog, At(0, s), k), |prog|)
  {
    hide Ev, Program;
    EmptyForCode(x);
    EmptyForFalls(x, s);
    Spins([Instr(JZ, x, 0, 0, 0), Jump(-2)], x, s, 0, k);
  }

  lemma EmptyForCode(x: Byte)
    ensures Program(EmptyFor(x), true) == [Instr(JZ, x, 0, 0, 0), Jump(-2)]
    ensures TestItems([], x) == [Emit(Instr(JZ, x, 0, 0, 0), {}, 0)]
  {
    var jz, none := Instr(JZ, x, 0, 0, 0), [];
    assert TestItems([], x) == [Emit(jz, {}, 0)];
    FuseOne(jz, {}, true);
    assert Fuse(none, false, true) == Buf([], false);
    hide Fuse;
    assert ReEmit([], {x as int}) == none;
    assert IncrCode(none, {x as int}, true) == [];
    assert Gen(EmptyFor(x), false, true, true) == LayFor(true, [], [jz], [], []);
    assert LayFor(true, [], [jz], [], []) == [Cell.Ready(jz), Cell.Ready(Jump(-2))];
  }

  lemma NilFalls<V, W>(env: Env<V, W>, s: State<V, W>, fuel: nat)
    requires fuel > 0
    ensures Ev(env, Nil, s, fuel) == Fell(s)
  {
  }

  lemma EmptyForFalls(x: Byte, s: State<int, int>)
    requires s.regs(x) == 0
    ensures Ev(DEMO, EmptyFor(x), s, 1) == Fell(s)
  {
    hide Ev, Unfused, RunLine, Gen, Flow;
    NilFalls(DEMO, s, 1);
    var jz := Instr(JZ, x, 0, 0, 0);
    EmptyForCode(x);
    FuseOne(jz, {}, true);
    RunTwo(DEMO, jz, jz, s);
    UnfoldFor(Setting(DEMO, [], true, Pact({}, false)), x as nat + 1, {x as int}, Nil, [], x, [], Nil, false, true, {}, None, s, 1);
  }

  lemma {:induction false} Spins(prog: seq<Instr>, x: Byte, s: State<int, int>, pc: int, k: nat)
    requires s.regs(x) == 0 && prog == [Instr(JZ, x, 0, 0, 0), Jump(-2)] && (pc == 0 || pc == 1)
    ensures !Final(Run(DEMO, prog, At(pc, s), k), |prog|)
    decreases k
  {
    if k > 0 { Spins(prog, x, s, 1 - pc, k - 1); }
  }

  // ----- an ordinary loop keeps the discipline -----

  /** while (i < n) i = i + d, with the comparison and the sum in temporary t. */
  function CountingLoop(k: nat, i: Byte, n: Byte, d: Byte, t: Byte): Code {
    While(k, Nil, [Emit(Instr(CMP, t, n, i, 3), Range(0, k), 0)], t,
          Line([Emit(Instr(ADD, t, d, i, 0), Range(0, k), 0)] + [Emit(Instr(MOVE, i, t, 0, 0), Range(0, k), 0)]))
  }

  lemma FlowTwo(p: Instr, i: Instr, locals: set<int>, locals': set<int>, opt: bool, parent: bool, A: set<int>, pact: Pact)
    requires pact.keep == {} && Reads(p) <= A && DropSelfTarget(p) == p
    ensures FlowItems([Emit(p, locals, 0)] + [Emit(i, locals', 0)], opt, parent, A, pact)
         == FlowItem(Buf([p], true), Emit(i, locals', 0), parent, After(A, p, pact.sure), pact)
  {
    hide DropSelfTarget, Merge, After, Reads;
    var none: seq<Item> := [];
    var one := [Emit(p, locals, 0)];
    var two := one + [Emit(i, locals', 0)];
    assert Fuse(none, opt, parent) == Buf([], opt) && FlowItems(none, opt, parent, A, pact) == Some(A);
    assert one[..0] == none && two[..1] == one;
    assert [] + [p] == [p];
    assert Fuse(one, opt, parent) == Buf([p], true);
    assert FlowItems(one, opt, parent, A, pact) == Some(After(A, p, pact.sure));
  }

  /** Variables below k, temporaries from k on: the loop is compiled right, whatever runs before it. */
  lemma CountingLoopFlows(k: nat, i: Byte, n: Byte, d: Byte, t: Byte, parent: bool, A: set<int>, pact: Pact)
    requires pact.keep == {} && i < k && n < k && d < k && k <= t as int && Range(0, k) <= A
    ensures Flow(CountingLoop(k, i, n, d, t), false, parent, true, A, pact, None) == Some(Range(0, k))
  {
    hide Flow, FlowItems, Fuse, FlowItem, After, Merge;
    var L := Range(0, k);
    var cmp, jz, add, move := Instr(CMP, t, n, i, 3), Instr(JZ, t, 0, 0, 0), Instr(ADD, t, d, i, 0), Instr(MOVE, i, t, 0, 0);
    FlowTwo(cmp, jz, L, {}, false, parent, L, pact);
    BranchFlows(k, cmp, jz, parent, L, pact);
    var T := FlowItem(Buf([cmp], true), Emit(jz, {}, 0), parent, After(L, cmp, pact.sure), pact).value;
    FlowTwo(add, move, L, L, true, parent, T, pact);
    SumFlows(k, add, move, L, parent, T, pact);
    WhileFlows(k, [Emit(cmp, L, 0)], t, [Emit(add, L, 0)] + [Emit(move, L, 0)], parent, A, pact);
  }

  lemma BranchFlows(k: nat, cmp: Instr, jz: Instr, parent: bool, A: set<int>, pact: Pact)
    requires pact.keep == {} && cmp.op == CMP && 0 <= cmp.a1 < k && cmp.a1 < NONE && jz == Instr(JZ, cmp.a0, 0, 0, 0)
    requires k <= cmp.a0 as int && Range(0, k) <= A
    ensures var T := FlowItem(Buf([cmp], true), Emit(jz, {}, 0), parent, After(A, cmp, pact.sure), pact); T.Some? && Range(0, k) <= T.value
  {
  }

  lemma SumFlows(k: nat, add: Instr, move: Instr, locals: set<int>, parent: bool, A: set<int>, pact: Pact)
    requires pact.keep == {} && add.op == ADD && move.op == MOVE && move.a1 == add.a0 && k <= add.a0 as int && Range(0, k) <= A
    ensures var B := FlowItem(Buf([add], true), Emit(move, locals, 0), parent, After(A, add, pact.sure), pact);
      B.Some? && Range(0, k) <= B.value
  {
  }

  lemma WhileFlows(k: nat, test: seq<Item>, r: Byte, body: seq<Item>, parent: bool, A: set<int>, pact: Pact)
    requires StraightItems(test) && StraightItems(body) && Range(0, k) <= A
    requires var T := FlowItems(TestItems(test, r), false, parent, Range(0, k), pact);
             && T.Some? && Range(0, k) <= T.value
             && var B := FlowItems(body, true, parent, T.value, pact);
             B.Some? && Range(0, k) <= B.value
    ensures Flow(While(k, Nil, test, r, Line(body)), false, parent, true, A, pact, None) == Some(Range(0, k))
  {
  }
}
