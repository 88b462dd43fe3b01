/** Handlers from the push to the catch: over any run in which a frame keeps a trap, a throw it
    catches goes on where that trap said, and popping traps brings the earlier ones back. */
module Traps {
  import opened Common
  import opened Frames

  /** The first n handlers of frame `d`, whatever is pushed and popped behind them. */
  ghost predicate Same(vm: VM, after: VM, d: nat, n: nat) {
    && d < |vm.frames| && d < |after.frames| && n <= |vm.frames[d].traps| && n <= |after.frames[d].traps|
    && after.frames[d].traps[..n] == vm.frames[d].traps[..n]
  }

  ghost predicate Keeps(vm: VM, d: nat, n: nat) { d < |vm.frames| && n <= |vm.frames[d].traps| }

  /** Throughout the run frame `d` is there and has at least n handlers. */
  ghost predicate Holding(vm: VM, ops: seq<Op>, d: nat, n: nat)
    requires Inv(vm) && LegalRun(vm, ops)
    decreases |ops|
  {
    Keeps(vm, d, n) && (ops == [] || (StepKeepsInv(vm, ops[0]); Holding(Step(vm, ops[0]), ops[1..], d, n)))
  }

  lemma SameTrans(a: VM, b: VM, c: VM, d: nat, n: nat)
    requires Same(a, b, d, n) && Same(b, c, d, n)
    ensures Same(a, c, d, n)
  {
  }

  /** Frames below the innermost one are untouched, and what it had is a beginning of what it has, or the other way round. */
  lemma EditSame(vm: VM, after: VM, d: nat, n: nat)
    requires |after.frames| == |vm.frames| > 0 && after.frames[..|vm.frames| - 1] == vm.frames[..|vm.frames| - 1]
    requires Last(vm).traps <= Last(after).traps || Last(after).traps <= Last(vm).traps
    requires Keeps(vm, d, n) && Keeps(after, d, n)
    ensures Same(vm, after, d, n)
  {
    if d < |vm.frames| - 1 {
      assert after.frames[d] == after.frames[..|vm.frames| - 1][d];
    }
  }

  lemma PushSame(vm: VM, after: VM, d: nat, n: nat)
    requires |after.frames| == |vm.frames| + 1 && after.frames[..|vm.frames|] == vm.frames && Keeps(vm, d, n)
    ensures Same(vm, after, d, n)
  {
    assert after.frames[d] == after.frames[..|vm.frames|][d];
  }

  lemma PopSame(vm: VM, after: VM, d: nat, n: nat)
    requires vm.frames != [] && after.frames == vm.frames[..|vm.frames| - 1] && Keeps(vm, d, n) && Keeps(after, d, n)
    ensures Same(vm, after, d, n)
  {
  }

  lemma {:induction false} UnwindSame(vm: VM, err: Value, limit: int, d: nat, n: nat)
    requires Inv(vm) && Keeps(vm, d, n) && Keeps(Unwind(vm, err, limit), d, n)
    ensures Same(vm, Unwind(vm, err, limit), d, n)
    decreases |vm.frames|
  {
    hide Inv;
    LastIsRunning(vm);
    var r := Unwind(vm, err, limit);
    if !Alive(vm) || Last(vm).traps != [] {
      EditSame(vm, r, d, n);
    } else {
      var left := Leave(Killed(vm, Last(vm).gen));
      LeftInv(vm);
      if !Last(vm).root { UnwindShorter(left, err, limit); }
      PopSame(vm, left, d, n);
      if !Last(vm).root {
        UnwindSame(left, err, limit, d, n);
        SameTrans(vm, left, r, d, n);
      }
    }
  }

  lemma ActSame(vm: VM, op: Op, d: nat, n: nat)
    requires Inv(vm) && Legal(vm, op) && Keeps(vm, d, n) && Keeps(Act(vm, op), d, n)
    ensures Same(vm, Act(vm, op), d, n)
  {
    hide Inv, Act, Legal, Same, Keeps;
    match op
    case Call(_, _, _) => EntrySame(vm, op, d, n);
    case HostCall(_, _) => EntrySame(vm, op, d, n);
    case HostResume(_, _) => EntrySame(vm, op, d, n);
    case Ret(_) => ExitSame(vm, op, d, n);
    case Raise(_) => ExitSame(vm, op, d, n);
    case Yield(_, _, _) => ExitSame(vm, op, d, n);
    case Resume(_, _) => WakeSame(vm, op, d, n);
    case _ => PlainSame(vm, op, d, n);
  }

  lemma PlainSame(vm: VM, op: Op, d: nat, n: nat)
    requires Inv(vm) && Legal(vm, op) && Keeps(vm, d, n) && Keeps(Act(vm, op), d, n)
    requires op.Set? || op.Jump? || op.TailCall? || op.PushTrap? || op.PopTrap?
    ensures Same(vm, Act(vm, op), d, n)
  {
    hide Inv, Put, Grown, Moved;
    LastIsRunning(vm);
    EditSame(vm, Act(vm, op), d, n);
  }

  lemma EntrySame(vm: VM, op: Op, d: nat, n: nat)
    requires Inv(vm) && Legal(vm, op) && Keeps(vm, d, n) && (op.Call? || op.HostCall? || op.HostResume?)
    ensures Same(vm, Act(vm, op), d, n)
  {
    hide Inv, Grown, Written, MakeGenerator, Same, Keeps;
    LastIsRunning(vm);
    var r := Act(vm, op);
    if op.Call? && op.fn.generator {
      MadeSame(vm, op.fn, op.at, op.target, d, n);
    } else if op.HostResume? && !vm.gens[op.g].Suspended? {
      SameFrames(vm, r, d, n);
    } else {
      PushSame(vm, r, d, n);
    }
  }

  lemma SameFrames(vm: VM, after: VM, d: nat, n: nat)
    requires after.frames == vm.frames && Keeps(vm, d, n)
    ensures Same(vm, after, d, n)
  {
  }

  lemma ExitSame(vm: VM, op: Op, d: nat, n: nat)
    requires Inv(vm) && Legal(vm, op) && Keeps(vm, d, n) && Keeps(Act(vm, op), d, n) && (op.Ret? || op.Raise? || op.Yield?)
    ensures Same(vm, Act(vm, op), d, n)
  {
    hide Inv, Unwind, Suspend, Return, Same, Keeps;
    LastIsRunning(vm);
    if op.Raise? {
      UnwindSame(vm, op.error, Last(vm).top, d, n);
    } else if op.Yield? && Last(vm).gen.None? {
      UnwindSame(vm, Message, Last(vm).top, d, n);
    } else {
      FinishedPops(vm, op);
      PopSame(vm, Act(vm, op), d, n);
    }
  }

  lemma WakeSame(vm: VM, op: Op, d: nat, n: nat)
    requires Inv(vm) && Legal(vm, op) && Keeps(vm, d, n) && Keeps(Act(vm, op), d, n) && op.Resume?
    ensures Same(vm, Act(vm, op), d, n)
  {
    hide Inv, Unwind, Written, Grown, Same, Keeps;
    LastIsRunning(vm);
    var v := At(vm.stack, Last(vm).base + op.reg);
    if v.Generator? && v.id < |vm.gens| && vm.gens[v.id].Suspended? {
      PushSame(vm, Act(vm, op), d, n);
    } else {
      UnwindSame(vm, Message, Last(vm).top, d, n);
    }
  }

  lemma MadeSame(vm: VM, fn: Proto, at: int, target: int, d: nat, n: nat)
    requires Inv(vm) && Legal(vm, Call(fn, at, target)) && fn.generator && Keeps(vm, d, n)
    ensures Same(vm, MakeGenerator(vm, fn, at, target), d, n)
  {
    assert MakeGenerator(vm, fn, at, target).frames == vm.frames;
  }

  /** One step keeps the handlers that stay. */
  lemma StepSame(vm: VM, op: Op, d: nat, n: nat)
    requires Inv(vm) && Legal(vm, op) && Keeps(vm, d, n) && Keeps(Step(vm, op), d, n)
    ensures Same(vm, Step(vm, op), d, n)
  {
    hide Inv, Act;
    SetKeepsInv(vm, vm.stack, Silent);
    ActSame(vm.(event := Silent), op, d, n);
  }

  /** So does every run. */
  lemma {:induction false} RunSame(vm: VM, ops: seq<Op>, d: nat, n: nat)
    requires Inv(vm) && LegalRun(vm, ops) && Holding(vm, ops, d, n)
    ensures Same(vm, Run(vm, ops), d, n)
    decreases |ops|
  {
    hide Act;
    if ops != [] {
      StepKeepsInv(vm, ops[0]);
      var s := Step(vm, ops[0]);
      HoldingNow(s, ops[1..], d, n);
      StepSame(vm, ops[0], d, n);
      RunSame(s, ops[1..], d, n);
      SameTrans(vm, s, Run(vm, ops), d, n);
    }
  }

  lemma HoldingNow(vm: VM, ops: seq<Op>, d: nat, n: nat)
    requires Inv(vm) && LegalRun(vm, ops) && Holding(vm, ops, d, n)
    ensures Keeps(vm, d, n)
  {
  }

  /** A handler is pushed, anything runs while its frame keeps it, and a throw comes that this frame catches with it:
      the frame goes on at `ip`, with the error in register `catcher` and the handlers it had before. */
  lemma TrapCatches(vm: VM, ip: nat, catcher: nat, ops: seq<Op>, err: Value)
    requires Inv(vm) && Legal(vm, PushTrap(ip, catcher))
    requires var s := Step(vm, PushTrap(ip, catcher));
             Inv(s) && LegalRun(s, ops) && Holding(s, ops, |vm.frames| - 1, |Last(vm).traps| + 1)
    requires var t := Run(Step(vm, PushTrap(ip, catcher)), ops);
             Catches(t, |vm.frames| - 1) && |t.frames[|vm.frames| - 1].traps| == |Last(vm).traps| + 1
    ensures var t := Run(Step(vm, PushTrap(ip, catcher)), ops);
            var u := Step(t, Raise(err));
            && |u.frames| == |vm.frames| && Last(u).ip == ip && Last(u).base == t.frames[|vm.frames| - 1].base
            && Last(u).traps == Last(vm).traps && Reg(u.stack, Last(u).base, catcher) == err
  {
    hide Inv, LegalRun, Holding, Run;
    var s, d, n := Step(vm, PushTrap(ip, catcher)), |vm.frames| - 1, |Last(vm).traps|;
    var t := Run(s, ops);
    assert Last(s).traps[..n] == Last(vm).traps && Last(s).traps[n].ip == ip && Last(s).traps[n].target == catcher;
    RunSame(s, ops, d, n + 1);
    assert t.frames[d].traps[n] == t.frames[d].traps[..n + 1][n] == s.frames[d].traps[..n + 1][n];
    assert t.frames[d].traps[..n] == t.frames[d].traps[..n + 1][..n] == Last(s).traps[..n + 1][..n] == Last(s).traps[..n];
    hide Act;
    CatchGoesOn(t, err, d);
  }

  /** What a caught throw leaves of the frame that catches. */
  lemma CatchGoesOn(vm: VM, err: Value, d: nat)
    requires Inv(vm) && Catches(vm, d)
    ensures var f := vm.frames[d];
            var h := f.traps[|f.traps| - 1];
            var u := Step(vm, Raise(err));
            && |u.frames| == d + 1 && Last(u).ip == h.ip && Last(u).base == f.base
            && Last(u).traps == f.traps[..|f.traps| - 1] && Reg(u.stack, f.base, h.target) == err
  {
    hide Inv, Unwind;
    var q := vm.(event := Silent);
    SetKeepsInv(vm, vm.stack, Silent);
    ThrowLands(q, err, Last(q).top, d);
  }

  /** Handlers pushed and popped in between do not matter: popping down to as many as there were brings exactly those back. */
  lemma PopRestores(vm: VM, ops: seq<Op>)
    requires Inv(vm) && vm.frames != [] && LegalRun(vm, ops) && Holding(vm, ops, |vm.frames| - 1, |Last(vm).traps|)
    requires var t := Run(vm, ops); |t.frames| == |vm.frames| && Alive(t)
    ensures var t := Run(vm, ops);
            && |Last(t).traps| >= |Last(vm).traps|
            && var pop := PopTrap(|Last(t).traps| - |Last(vm).traps|);
            Legal(t, pop) && Last(Step(t, pop)).traps == Last(vm).traps
  {
    hide Inv, LegalRun, Holding, Run;
    RunSame(vm, ops, |vm.frames| - 1, |Last(vm).traps|);
  }

  // ------------------------------------------------------ registers and arguments

  /** Setting a register changes it and nothing else; a jump moves the position and nothing else. */
  lemma SetAndJump(vm: VM, reg: int, v: Value, ip: nat)
    requires Inv(vm) && Legal(vm, Set(reg, v)) && Alive(vm)
    ensures var s := Step(vm, Set(reg, v));
            && s == vm.(stack := s.stack, event := Silent) && |s.stack| == |vm.stack| && Reg(s.stack, Last(vm).base, reg) == v
            && forall i :: 0 <= i < |vm.stack| && i != Last(vm).base + reg ==> At(s.stack, i) == At(vm.stack, i)
    ensures var j := Step(vm, Jump(ip));
            && |j.frames| == |vm.frames| && j.frames[..|vm.frames| - 1] == vm.frames[..|vm.frames| - 1] && Last(j).ip == ip
            && j == vm.(frames := j.frames, event := Silent) && Last(j) == Last(vm).(ip := ip)
  {
    hide Inv;
    LastIsRunning(vm);
  }

  /** A call enters the function at its start, and the values from register `at` on are its first registers. */
  lemma CallPasses(vm: VM, fn: Proto, at: int, target: int)
    requires Inv(vm) && Legal(vm, Call(fn, at, target)) && !fn.generator
    ensures var s := Step(vm, Call(fn, at, target));
            && |s.frames| == |vm.frames| + 1 && s.frames[..|vm.frames|] == vm.frames && s.gens == vm.gens
            && Last(s).ip == fn.entry && Last(s).top - Last(s).base == fn.size
            && !Last(s).root && Last(s).traps == [] && Last(s).gen == None
    ensures var s := Step(vm, Call(fn, at, target));
            forall r :: 0 <= r && Last(vm).base + at + r < |vm.stack|
              ==> Reg(s.stack, Last(s).base, r) == Reg(vm.stack, Last(vm).base, at + r)
  {
    hide Inv;
    LastIsRunning(vm);
  }

  /** A call from native code enters the function at its start as a root frame, and the values that native code pushed last
      are its first registers. */
  lemma HostCallPasses(vm: VM, fn: Proto, nargs: nat)
    requires Inv(vm) && Legal(vm, HostCall(fn, nargs))
    ensures var s := Step(vm, HostCall(fn, nargs));
            && |s.frames| == |vm.frames| + 1 && s.frames[..|vm.frames|] == vm.frames && s.gens == vm.gens
            && Last(s).ip == fn.entry && Last(s).top - Last(s).base == fn.size && Last(s).root && Last(s).traps == [] && Last(s).gen == None
            && Last(s).base == Last(vm).top - nargs
            && (forall r :: 0 <= r < nargs ==> Reg(s.stack, Last(s).base, r) == At(vm.stack, Last(vm).top - nargs + r))
            && forall i :: 0 <= i < |vm.stack| ==> At(s.stack, i) == At(vm.stack, i)
  {
    hide Inv;
    LastIsRunning(vm);
  }

  // -------------------------------------------------------------------- generators

  /** Resuming what is no suspended generator, and yielding outside a generator, are errors like any other. */
  lemma WrongUse(vm: VM, op: Op)
    requires Inv(vm) && Legal(vm, op)
    requires op.Resume? ==> forall g: nat :: Wakes(vm, op, g) && g < |vm.gens| ==> !vm.gens[g].Suspended?
    requires op.Resume? || (op.Yield? && Last(vm).gen.None?)
    ensures Step(vm, op) == Step(vm, Raise(Message))
  {
    hide Inv, Unwind;
    var v := At(vm.stack, Last(vm).base + if op.Resume? then op.reg else 0);
    if op.Resume? && v.Generator? { assert Wakes(vm, op, v.id); }
  }

  /** A return ends the generator of its frame, and no other. */
  lemma ReturnEnds(vm: VM, result: Option<int>)
    requires Inv(vm) && Legal(vm, Ret(result))
    ensures var s := Step(vm, Ret(result));
            && |s.gens| == |vm.gens|
            && forall g :: 0 <= g < |vm.gens| ==> s.gens[g] == if Last(vm).gen == Some(g) then Dead else vm.gens[g]
  {
    hide Inv, Put, Cleared;
    LastIsRunning(vm);
  }
}
