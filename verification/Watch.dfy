/** A modulo that fails is not guarded: the machine goes on with the target unwritten.  A watched
    run stops there instead.  As long as it does not stop, watching changes nothing. */
module Watch {
  import opened Common
  import opened Bytecode
  import opened Peephole
  import opened Codegen
  import opened Simulation

  function Watched<V, W>(env: Env<V, W>): Env<V, W> { env.(watch := true) }

  predicate Slips<V, W>(o: Outcome<V, W>) { o.Ended? && o.h.Slipped? }

  /** No modulo that the source runs fails. */
  ghost predicate NoSlip<V(!new), W(!new)>(env: Env<V, W>, c: Code, s: State<V, W>) {
    forall f: nat :: !Slips(Ev(Watched(env), c, s, f))
  }

  lemma WatchedIsLawful<V(!new), W(!new)>(env: Env<V, W>)
    requires Lawful(env)
    ensures Lawful(Watched(env))
  {
  }

  // ----- straight-line code -----

  lemma ExecWatched<V, W>(env: Env<V, W>, i: Instr, s: State<V, W>)
    requires !env.watch
    ensures var r := Exec(Watched(env), i, s); !(r.Stop? && r.h.Slipped?) ==> Exec(env, i, s) == r
  {
  }

  lemma {:induction false} LineWatched<V, W>(env: Env<V, W>, code: seq<Instr>, s: State<V, W>)
    requires !env.watch
    ensures var r := RunLine(Watched(env), code, s); !(r.Stop? && r.h.Slipped?) ==> RunLine(env, code, s) == r
    decreases |code|
  {
    hide Exec;
    if code != [] {
      LineWatched(env, code[..|code| - 1], s);
      var r := RunLine(Watched(env), code[..|code| - 1], s);
      if r.Go? { ExecWatched(env, Last(code), r.st); }
    }
  }

  lemma CheckedWatched<V, W>(env: Env<V, W>, o: Outcome<V, W>, test: seq<Item>, r: Byte)
    requires !env.watch
    ensures var v := Checked(Watched(env), o, test, r); !(v.Other? && Slips(v.o)) ==> Checked(env, o, test, r) == v
  {
    hide RunLine;
    if o.Fell? { LineWatched(env, Unfused(TestItems(test, r)), o.s); }
  }

  lemma IncrementedWatched<V, W>(env: Env<V, W>, u: Verdict<V, W>, incr: seq<Item>)
    requires !env.watch
    ensures var v := Incremented(Watched(env), u, incr); !(v.Other? && Slips(v.o)) ==> Incremented(env, u, incr) == v
  {
    hide RunLine;
    if u.Yes? { LineWatched(env, Unfused(incr), u.s); }
  }

  // ----- the source -----

  lemma {:induction false} EvWatched<V, W>(env: Env<V, W>, c: Code, s: State<V, W>, f: nat)
    requires !env.watch && !Slips(Ev(Watched(env), c, s, f))
    ensures Ev(env, c, s, f) == Ev(Watched(env), c, s, f)
    decreases f, c
  {
    hide RunLine;
    match c
    case Nil =>
    case Break =>
    case Continue =>
    case Line(items) => LineWatched(env, Unfused(items), s);
    case Seq(a, b) =>
      EvWatched(env, a, s, f);
      var o := Ev(env, a, s, f);
      if o.Fell? { EvWatched(env, b, o.s, f); }
    case If(test, r, thn) =>
      LineWatched(env, Unfused(TestItems(test, r)), s);
      var res := Tested(env, test, r, s);
      if res.Go? && !res.jump { EvWatched(env, thn, res.st, f); }
    case IfElse(test, r, thn, els) =>
      LineWatched(env, Unfused(TestItems(test, r)), s);
      var res := Tested(env, test, r, s);
      if res.Go? { EvWatched(env, if res.jump then els else thn, res.st, f); }
    case Logic(isAnd, _, f', rest) =>
      if env.isFalse(s.regs(f')) != isAnd { EvWatched(env, rest, s, f); }
    case While(_, _, _, _, _) => WhileWatched(env, c, s, f);
    case DoWhile(_, _, _, _, _) => DoWhileWatched(env, c, s, f);
    case For(_, _, _, _, _, _, _) => ForWatched(env, c, s, f);
    case Forever(_, _, _, _) => ForeverWatched(env, c, s, f);
  }

  function Plainly<V, W>(env: Env<V, W>): Setting<V, W> { Setting(env, [], false, Pact({}, false)) }

  lemma {:induction false} WhileWatched<V, W>(env: Env<V, W>, c: Code, s: State<V, W>, f: nat)
    requires c.While? && !env.watch && !Slips(Ev(Watched(env), c, s, f))
    ensures Ev(env, c, s, f) == Ev(Watched(env), c, s, f)
    decreases f, c, 0
  {
    hide Ev, Gen, Flow, RunLine, Tested, Checked;
    UnfoldWhile(Plainly(env), c.n, c.pre, c.test, c.r, c.body, false, false, {}, None, s, f);
    UnfoldWhile(Plainly(Watched(env)), c.n, c.pre, c.test, c.r, c.body, false, false, {}, None, s, f);
    if f > 0 {
      var o := Ev(Watched(env), c.pre, s, f);
      EndedIsOther(Watched(env), o, c.test, c.r);
      EvWatched(env, c.pre, s, f);
      CheckedWatched(env, o, c.test, c.r);
      var v := Checked(env, o, c.test, c.r);
      if v.Yes? {
        EvWatched(env, c.body, v.s, f);
        var v' := AfterBody(Ev(env, c.body, v.s, f));
        if v'.Yes? { EvWatched(env, c, v'.s, f - 1); }
      }
    }
  }

  lemma EndedIsOther<V, W>(env: Env<V, W>, o: Outcome<V, W>, test: seq<Item>, r: Byte)
    ensures Slips(o) ==> Checked(env, o, test, r) == Other(o)
  {
  }

  lemma {:induction false} DoWhileWatched<V, W>(env: Env<V, W>, c: Code, s: State<V, W>, f: nat)
    requires c.DoWhile? && !env.watch && !Slips(Ev(Watched(env), c, s, f))
    ensures Ev(env, c, s, f) == Ev(Watched(env), c, s, f)
    decreases f, c, 0
  {
    hide Ev, Gen, Flow, RunLine, Tested, Checked;
    UnfoldDoWhile(Plainly(env), c.n, c.body, c.pre, c.test, c.r, false, false, {}, None, s, f);
    UnfoldDoWhile(Plainly(Watched(env)), c.n, c.body, c.pre, c.test, c.r, false, false, {}, None, s, f);
    if f > 0 {
      EvWatched(env, c.body, s, f);
      var v := AfterBody(Ev(env, c.body, s, f));
      if v.Yes? {
        var o := Ev(Watched(env), c.pre, v.s, f);
        EndedIsOther(Watched(env), o, c.test, c.r);
        EvWatched(env, c.pre, v.s, f);
        CheckedWatched(env, o, c.test, c.r);
        var v' := Checked(env, o, c.test, c.r);
        if v'.Yes? { EvWatched(env, c, v'.s, f - 1); }
      }
    }
  }

  lemma {:induction false} ForWatched<V, W>(env: Env<V, W>, c: Code, s: State<V, W>, f: nat)
    requires c.For? && !env.watch && !Slips(Ev(Watched(env), c, s, f))
    ensures Ev(env, c, s, f) == Ev(Watched(env), c, s, f)
    decreases f, c, 0
  {
    hide Ev, Gen, Flow, RunLine, Tested, Checked;
    UnfoldFor(Plainly(env), c.n, c.locals, c.pre, c.test, c.r, c.incr, c.body, false, false, {}, None, s, f);
    UnfoldFor(Plainly(Watched(env)), c.n, c.locals, c.pre, c.test, c.r, c.incr, c.body, false, false, {}, None, s, f);
    if f > 0 {
      var o := Ev(Watched(env), c.pre, s, f);
      EndedIsOther(Watched(env), o, c.test, c.r);
      EvWatched(env, c.pre, s, f);
      CheckedWatched(env, o, c.test, c.r);
      var v := Checked(env, o, c.test, c.r);
      if v.Yes? {
        EvWatched(env, c.body, v.s, f);
        var u := AfterBody(Ev(env, c.body, v.s, f));
        IncrementedWatched(env, u, c.incr);
        var v' := Incremented(env, u, c.incr);
        if v'.Yes? { EvWatched(env, c, v'.s, f - 1); }
      }
    }
  }

  lemma {:induction false} ForeverWatched<V, W>(env: Env<V, W>, c: Code, s: State<V, W>, f: nat)
    requires c.Forever? && !env.watch && !Slips(Ev(Watched(env), c, s, f))
    ensures Ev(env, c, s, f) == Ev(Watched(env), c, s, f)
    decreases f, c, 0
  {
    hide Ev, Gen, Flow, RunLine, Tested;
    UnfoldForever(Plainly(env), c.n, c.locals, c.incr, c.body, false, false, {}, None, s, f);
    UnfoldForever(Plainly(Watched(env)), c.n, c.locals, c.incr, c.body, false, false, {}, None, s, f);
    if f > 0 {
      EvWatched(env, c.body, s, f);
      var u := AfterBody(Ev(env, c.body, s, f));
      IncrementedWatched(env, u, c.incr);
      var v := Incremented(env, u, c.incr);
      if v.Yes? { EvWatched(env, c, v.s, f - 1); }
    }
  }

  // ----- the machine -----

  lemma {:induction false} EndStays<V, W>(env: Env<V, W>, prog: seq<Instr>, h: Halt<V, W>, k: nat)
    ensures Run(env, prog, End(h), k) == End(h)
    decreases k
  {
    if k > 0 { EndStays(env, prog, h, k - 1); }
  }

  lemma {:induction false} RunWatched<V, W>(env: Env<V, W>, prog: seq<Instr>, c: Config<V, W>, k: nat)
    requires !env.watch
    ensures var r := Run(Watched(env), prog, c, k); !(r.End? && r.h.Slipped?) ==> Run(env, prog, c, k) == r
    decreases k
  {
    hide Exec;
    if k > 0 {
      if c.At? && 0 <= c.pc < |prog| { ExecWatched(env, prog[c.pc], c.st); }
      var d := Step(Watched(env), prog, c);
      if d.End? && d.h.Slipped? {
        EndStays(Watched(env), prog, d.h, k - 1);
      } else {
        RunWatched(env, prog, d, k - 1);
      }
    }
  }
}
