/** Where the result of a resumed generator goes.  A root frame hands its result to
    native code; the flag is saved with the generator when it yields, so whether native
    code ever resumed a generator decides where later results go. */
module Roots {
  import opened Common
  import opened Frames

  /** Generator `g` carries the root flag, in its frame or in what it saved. */
  ghost predicate Flag(vm: VM, g: nat) {
    || (g < |vm.gens| && vm.gens[g].Suspended? && vm.gens[g].root)
    || exists k :: Names(vm, k, g) && vm.frames[k].root
  }

  /** The step is native code resuming the suspended generator `g`. */
  predicate Rooting(vm: VM, op: Op, g: nat) {
    op.HostResume? && op.g == g && g < |vm.gens| && vm.gens[g].Suspended?
  }

  // ------------------------------------------------------------- what one step does

  /** A running generator's flag is its frame's. */
  lemma FlagOfFrame(vm: VM, k: int, g: nat)
    requires Inv(vm) && Names(vm, k, g)
    ensures Flag(vm, g) <==> vm.frames[k].root
  {
    assert vm.gens[g].Running?;
  }

  lemma FlagOfSaved(vm: VM, g: nat)
    requires Inv(vm) && g < |vm.gens| && vm.gens[g].Suspended?
    ensures Flag(vm, g) <==> vm.gens[g].root
  {
    forall k ensures !Names(vm, k, g) { }
  }

  /** What the flag of `g` depends on: the frames that name it and what it saved. */
  lemma FlagDepends(a: VM, b: VM, g: nat)
    requires forall k :: (Names(a, k, g) && a.frames[k].root) <==> (Names(b, k, g) && b.frames[k].root)
    requires Keeps(a, b, g) || (g >= |a.gens| && (g >= |b.gens| || !b.gens[g].Suspended? || !b.gens[g].root))
    ensures Flag(a, g) <==> Flag(b, g)
  {
  }

  lemma EditFlag(vm: VM, after: VM, g: nat)
    requires |after.frames| == |vm.frames| > 0 && after.frames[..|vm.frames| - 1] == vm.frames[..|vm.frames| - 1] && after.gens == vm.gens
    requires Last(after).gen == Last(vm).gen && Last(after).root == Last(vm).root && g < |vm.gens|
    ensures Flag(after, g) <==> Flag(vm, g)
  {
    var n := |vm.frames| - 1;
    forall k ensures (Names(vm, k, g) && vm.frames[k].root) <==> (Names(after, k, g) && after.frames[k].root) {
      assert 0 <= k < n ==> after.frames[..n][k] == vm.frames[..n][k];
    }
    FlagDepends(vm, after, g);
  }

  /** Dropping the innermost frame, which names another generator or none. */
  lemma DropFlag(vm: VM, left: VM, g: nat)
    requires vm.frames != [] && left.frames == vm.frames[..|vm.frames| - 1] && Keeps(vm, left, g) && Last(vm).gen != Some(g)
    ensures Flag(left, g) <==> Flag(vm, g)
  {
    FlagDepends(vm, left, g);
  }

  /** Pushing a frame that names another generator or none. */
  lemma PushFlag(vm: VM, f: Frame, after: VM, g: nat)
    requires after.frames == vm.frames + [f] && Keeps(vm, after, g) && f.gen != Some(g)
    ensures Flag(after, g) <==> Flag(vm, g)
  {
    FlagDepends(vm, after, g);
  }

  lemma {:induction false} UnwindFlag(vm: VM, err: Value, limit: int, g: nat)
    requires Inv(vm) && g < |vm.gens|
    ensures |Unwind(vm, err, limit).gens| == |vm.gens|
    ensures !Unwind(vm, err, limit).gens[g].Dead? ==> (Flag(Unwind(vm, err, limit), g) <==> Flag(vm, g))
    decreases |vm.frames|
  {
    hide Inv, Flag, Land;
    LastIsRunning(vm);
    var r := Unwind(vm, err, limit);
    if !Alive(vm) {
      EditFlag(vm, r, g);
    } else if Last(vm).traps != [] {
      LandFlag(vm, err, limit, g);
    } else {
      var left := Leave(Killed(vm, Last(vm).gen));
      LeftInv(vm);
      if Last(vm).gen == Some(g) {
        if !Last(vm).root {
          UnwindKeepsGen(left, err, limit, g);
          UnwindSize(left, err, limit);
        }
      } else {
        DropFlag(vm, left, g);
        if Last(vm).root {
          SameFlag(left, r, g);
        } else {
          UnwindFlag(left, err, limit, g);
        }
      }
    }
  }

  lemma LandFlag(vm: VM, err: Value, limit: int, g: nat)
    requires vm.frames != [] && Last(vm).traps != [] && g < |vm.gens|
    ensures Land(vm, err, limit).gens == vm.gens && (Flag(Land(vm, err, limit), g) <==> Flag(vm, g))
  {
    hide Flag;
    EditFlag(vm, Land(vm, err, limit), g);
  }

  lemma SameFlag(a: VM, b: VM, g: nat)
    requires a.frames == b.frames && a.gens == b.gens
    ensures Flag(a, g) <==> Flag(b, g)
  {
  }

  lemma {:induction false} UnwindSize(vm: VM, err: Value, limit: int)
    requires Inv(vm)
    ensures |Unwind(vm, err, limit).gens| == |vm.gens|
    decreases |vm.frames|
  {
    if Alive(vm) && Last(vm).traps == [] {
      LeftInv(vm);
      if !Last(vm).root { UnwindSize(Leave(Killed(vm, Last(vm).gen)), err, limit); }
    }
  }

  lemma ReturnFlag(vm: VM, v: Value, g: nat)
    requires Alive(vm) && g < |vm.gens| && Last(vm).gen != Some(g)
    ensures Return(vm, v).gens == vm.gens && (Flag(Return(vm, v), g) <==> Flag(vm, g))
  {
    hide Flag;
    DropFlag(vm, Return(vm, v), g);
  }

  lemma FinishFlag(vm: VM, result: Option<int>, g: nat)
    requires Inv(vm) && Alive(vm) && g < |vm.gens| && !Finished(vm, result).gens[g].Dead?
    ensures Flag(Finished(vm, result), g) <==> Flag(vm, g)
  {
    hide Inv, Flag;
    LastIsRunning(vm);
    var f := Last(vm);
    var mid := Killed(vm, f.gen);
    ReturnFlag(mid, if result.Some? then At(vm.stack, f.base + result.value) else Null, g);
    KilledFlag(vm, f.gen, g);
  }

  lemma KilledFlag(vm: VM, h: Option<nat>, g: nat)
    requires h != Some(g)
    ensures Flag(Killed(vm, h), g) <==> Flag(vm, g)
  {
    FlagDepends(vm, Killed(vm, h), g);
  }

  /** A yield saves the flag of the frame. */
  lemma YieldFlag(vm: VM, has: bool, reg: int, live: int, g: nat)
    requires Inv(vm) && Alive(vm) && g < |vm.gens| && g < |Yielded(vm, has, reg, live).gens|
    requires !Yielded(vm, has, reg, live).gens[g].Dead?
    ensures Flag(Yielded(vm, has, reg, live), g) <==> Flag(vm, g)
  {
    hide Inv, Flag, Unwind, Suspend, Return;
    LastIsRunning(vm);
    var f := Last(vm);
    if f.gen.None? {
      UnwindFlag(vm, Message, f.top, g);
    } else {
      var v := At(vm.stack, f.base + reg);
      SuspendShape(vm, f.gen.value, live);
      var mid := Suspend(vm, f.gen.value, live);
      var held := mid.(stack := Put(mid.stack, f.base + reg, v));
      var out := if has then v else Null;
      if f.gen == Some(g) {
        assert Names(vm, |vm.frames| - 1, g);
        FlagOfFrame(vm, |vm.frames| - 1, g);
        YieldKeepsInv(vm, has, reg, live);
        ReturnGens(held, out);
        FlagOfSaved(Return(held, out), g);
      } else {
        SuspendFlag(vm, held, g);
        ReturnFlag(held, out, g);
      }
    }
  }

  lemma ReturnGens(vm: VM, v: Value)
    requires Alive(vm)
    ensures Return(vm, v).gens == vm.gens
  {
  }

  lemma SuspendFlag(vm: VM, mid: VM, g: nat)
    requires vm.frames != [] && mid.frames == vm.frames[..|vm.frames| - 1] + [Last(vm).(traps := [])] && Keeps(vm, mid, g)
    ensures Flag(mid, g) <==> Flag(vm, g)
  {
    var n := |vm.frames| - 1;
    forall k ensures (Names(vm, k, g) && vm.frames[k].root) <==> (Names(mid, k, g) && mid.frames[k].root) {
      assert 0 <= k < n ==> mid.frames[k] == vm.frames[k];
    }
    FlagDepends(vm, mid, g);
  }

  /** A resumed generator keeps its flag. */
  lemma ResumeFlag(vm: VM, h: nat, target: int, g: nat)
    requires Inv(vm) && Alive(vm) && h < |vm.gens| && vm.gens[h].Suspended? && Register(Last(vm), target) && g < |vm.gens|
    ensures Flag(Resumed(vm, h, target), g) <==> Flag(vm, g)
  {
    hide Inv, Flag;
    LastIsRunning(vm);
    var r := Resumed(vm, h, target);
    if h == g {
      FlagOfSaved(vm, g);
      ResumeKeepsInv(vm, h, target);
      assert Names(r, |vm.frames|, g);
      FlagOfFrame(r, |vm.frames|, g);
    } else {
      PushFlag(vm, Last(r), r, g);
    }
  }

  /** Native code sets the flag of the generator it resumes, and no other. */
  lemma HostWakeFlag(vm: VM, h: nat, reg: int, g: nat)
    requires Inv(vm) && h < |vm.gens| && Register(Last(vm), reg) && g < |vm.gens|
    ensures Flag(WokenByHost(vm, h, reg), g) <==> Flag(vm, g) || (h == g && vm.gens[g].Suspended?)
  {
    hide Inv, Flag;
    LastIsRunning(vm);
    var r := WokenByHost(vm, h, reg);
    if !vm.gens[h].Suspended? {
      SameFlag(vm, r, g);
    } else if h == g {
      HostWakeKeepsInv(vm, h, reg);
      assert Names(r, |vm.frames|, g);
      FlagOfFrame(r, |vm.frames|, g);
    } else {
      PushFlag(vm, Last(r), r, g);
    }
  }

  lemma CallFlag(vm: VM, op: Op, g: nat)
    requires Inv(vm) && Legal(vm, op) && (op.Call? || op.HostCall?) && g < |Act(vm, op).gens|
    ensures Flag(Act(vm, op), g) <==> Flag(vm, g)
  {
    hide Inv, Flag, Cleared, Put, Grown;
    LastIsRunning(vm);
    if op.Call? && op.fn.generator {
      MadeFlag(vm, op.fn, op.at, op.target, g);
    } else {
      PushFlag(vm, Last(Act(vm, op)), Act(vm, op), g);
    }
  }

  lemma MadeFlag(vm: VM, fn: Proto, at: int, target: int, g: nat)
    requires Inv(vm) && g < |MakeGenerator(vm, fn, at, target).gens| && fn.size >= 1
    ensures Flag(MakeGenerator(vm, fn, at, target), g) <==> Flag(vm, g)
  {
    hide Cleared, Put, Grown, Saved, Shift;
    FlagNone(vm, |vm.gens|);
    var r := MakeGenerator(vm, fn, at, target);
    assert r.frames == vm.frames;
    FlagDepends(vm, r, g);
  }

  /** No frame names a generator that does not exist. */
  lemma FlagNone(vm: VM, g: nat)
    requires Inv(vm) && g >= |vm.gens|
    ensures !Flag(vm, g) && forall k :: !Names(vm, k, g)
  {
  }

  lemma WakeFlag(vm: VM, reg: int, target: int, g: nat)
    requires Inv(vm) && Alive(vm) && Register(Last(vm), target) && g < |vm.gens|
    requires g < |Woken(vm, reg, target).gens| && !Woken(vm, reg, target).gens[g].Dead?
    ensures Flag(Woken(vm, reg, target), g) <==> Flag(vm, g)
  {
    hide Inv, Flag, Resumed, Unwind;
    LastIsRunning(vm);
    var v := At(vm.stack, Last(vm).base + reg);
    if v.Generator? && v.id < |vm.gens| && vm.gens[v.id].Suspended? {
      ResumeFlag(vm, v.id, target, g);
    } else {
      UnwindFlag(vm, Message, Last(vm).top, g);
    }
  }

  lemma PlainFlag(vm: VM, op: Op, g: nat)
    requires vm.frames != [] && Legal(vm, op) && g < |vm.gens|
    requires op.Set? || op.Jump? || op.TailCall? || op.PushTrap? || op.PopTrap?
    ensures Act(vm, op).gens == vm.gens && (Flag(Act(vm, op), g) <==> Flag(vm, g))
  {
    hide Flag;
    EditFlag(vm, Act(vm, op), g);
  }

  /** A step changes the flag of a generator that does not die exactly when it is native code
      resuming that generator. */
  lemma StepFlag(vm: VM, op: Op, g: nat)
    requires Inv(vm) && Legal(vm, op) && g < |Step(vm, op).gens| && !Step(vm, op).gens[g].Dead?
    ensures Flag(Step(vm, op), g) <==> Flag(vm, g) || Rooting(vm, op, g)
  {
    hide Inv, Flag, Unwind, Woken, WokenByHost, Yielded, Finished, Called, CalledByHost, Replaced, Trapped, Untrapped;
    var s := vm.(event := Silent);
    SetKeepsInv(vm, vm.stack, Silent);
    SameFlag(vm, s, g);
    SizeAfter(s, op);
    match op
    case Call(_, _, _) => CallFlag(s, op, g);
    case HostCall(_, _) => CallFlag(s, op, g);
    case HostResume(h, reg) => HostWakeFlag(s, h, reg, g);
    case Ret(result) => FinishFlag(s, result, g);
    case Raise(err) => UnwindFlag(s, err, Last(s).top, g);
    case Yield(has, reg, live) => YieldFlag(s, has, reg, live, g);
    case Resume(reg, target) => WakeFlag(s, reg, target, g);
    case _ => PlainFlag(s, op, g);
  }

  /** Only a call makes generators. */
  lemma SizeAfter(vm: VM, op: Op)
    requires Inv(vm) && Legal(vm, op)
    ensures !op.Call? ==> |Act(vm, op).gens| == |vm.gens|
  {
    hide Inv, Unwind;
    LastIsRunning(vm);
    UnwindSize(vm, Message, Last(vm).top);
    if op.Raise? { UnwindSize(vm, op.error, Last(vm).top); }
  }

  // -------------------------------------------------------------------------- runs

  /** Some step of the run is native code resuming the suspended generator `g`. */
  ghost predicate EverRooted(vm: VM, ops: seq<Op>, g: nat)
    requires Inv(vm) && LegalRun(vm, ops)
    decreases |ops|
  {
    ops != [] && (Rooting(vm, ops[0], g) || (StepKeepsInv(vm, ops[0]); EverRooted(Step(vm, ops[0]), ops[1..], g)))
  }

  lemma {:induction false} RunFlag(vm: VM, ops: seq<Op>, g: nat)
    requires Inv(vm) && LegalRun(vm, ops) && g < |Run(vm, ops).gens| && !Run(vm, ops).gens[g].Dead?
    ensures Flag(Run(vm, ops), g) <==> Flag(vm, g) || EverRooted(vm, ops, g)
    decreases |ops|
  {
    hide Act, Flag;
    if ops != [] {
      StepKeepsInv(vm, ops[0]);
      var s := Step(vm, ops[0]);
      RunFlag(s, ops[1..], g);
      if g < |s.gens| {
        if s.gens[g].Dead? { DeadForever(s, ops[1..], g); }
        StepFlag(vm, ops[0], g);
      } else {
        FlagNone(s, g);
        StepGrows(vm, ops[0]);
        FlagNone(vm, g);
      }
    }
  }

  lemma StepGrows(vm: VM, op: Op)
    requires Inv(vm) && Legal(vm, op)
    ensures |vm.gens| <= |Step(vm, op).gens|
  {
    hide Inv;
    var s := vm.(event := Silent);
    SetKeepsInv(vm, vm.stack, Silent);
    if op.Call? { LastIsRunning(s); } else { hide Act; SizeAfter(s, op); }
  }

  /** The saved root flag of a generator made in the run is set if and only if native code resumed
      it at some earlier step of the run. */
  lemma SavedRootExactly(vm: VM, ops: seq<Op>, g: nat)
    requires Inv(vm) && LegalRun(vm, ops) && |vm.gens| <= g < |Run(vm, ops).gens| && Run(vm, ops).gens[g].Suspended?
    ensures Run(vm, ops).gens[g].root <==> EverRooted(vm, ops, g)
  {
    hide Inv, Flag;
    RunFlag(vm, ops, g);
    FlagOfSaved(Run(vm, ops), g);
    FlagNone(vm, g);
  }

  /** The innermost frame hands a value over: it returns, or it yields and is a generator's. */
  predicate HandsOver(vm: VM, d: Op)
    requires vm.frames != []
  {
    Legal(vm, d) && (d.Ret? || (d.Yield? && Last(vm).gen.Some?))
  }

  function Handed(vm: VM, d: Op): Value
    requires vm.frames != [] && HandsOver(vm, d)
  {
    match d
    case Ret(result) => if result.Some? then Reg(vm.stack, Last(vm).base, result.value) else Null
    case Yield(has, reg, _) => if has then Reg(vm.stack, Last(vm).base, reg) else Null
  }

  /** The value goes to native code from a root frame and to the caller's target register from any other. */
  lemma HandedOver(vm: VM, d: Op)
    requires Inv(vm) && HandsOver(vm, d)
    ensures var u := Step(vm, d);
            var f := Last(vm);
            && u.frames == vm.frames[..|vm.frames| - 1]
            && u.event == (if f.root then Returned(Handed(vm, d)) else Silent)
            && (!f.root && f.target != -1 ==> Reg(u.stack, Caller(vm).base, f.target) == Handed(vm, d))
            && (f.root ==> forall i :: 0 <= i < f.base ==> At(u.stack, i) == At(vm.stack, i))
  {
    match d
    case Ret(result) =>
      hide Inv;
      ReturnDelivers(vm, result);
      Inside(vm, |vm.frames| - 1);
      Inside(vm, |vm.frames| - 2);
    case Yield(has, reg, live) => YieldDelivers(vm, has, reg, live);
  }

  lemma YieldDelivers(vm: VM, has: bool, reg: int, live: int)
    requires Inv(vm) && HandsOver(vm, Yield(has, reg, live))
    ensures var u := Step(vm, Yield(has, reg, live));
            var v := if has then Reg(vm.stack, Last(vm).base, reg) else Null;
            var f := Last(vm);
            && u.frames == vm.frames[..|vm.frames| - 1]
            && u.event == (if f.root then Returned(v) else Silent)
            && (!f.root && f.target != -1 ==> Reg(u.stack, Caller(vm).base, f.target) == v)
            && (f.root ==> forall i :: 0 <= i < f.base ==> At(u.stack, i) == At(vm.stack, i))
  {
    hide Inv, Suspend, Return;
    LastIsRunning(vm);
    Inside(vm, |vm.frames| - 1);
    Inside(vm, |vm.frames| - 2);
    var q, f := vm.(event := Silent), Last(vm);
    var held := Vacated(q, f.gen.value, reg, live);
    VacatedSpares(q, f.gen.value, reg, live);
    ReturnHands(held, if has then Reg(vm.stack, f.base, reg) else Null);
  }

  lemma VacatedSpares(vm: VM, g: nat, reg: int, live: int)
    requires vm.frames != [] && 0 <= Last(vm).base <= |vm.stack| && reg >= 0
    ensures var m := Vacated(vm, g, reg, live);
            && m.frames == vm.frames[..|vm.frames| - 1] + [Last(vm).(traps := [])] && m.event == vm.event && |m.stack| == |vm.stack|
            && forall i :: 0 <= i < Last(vm).base ==> At(m.stack, i) == At(vm.stack, i)
  {
    hide Saved, Shift;
  }

  lemma ReturnHands(m: VM, v: Value)
    requires Alive(m) && Last(m).base <= Caller(m).top && Last(m).top < |m.stack| && 0 <= Caller(m).base
    requires Last(m).root || Last(m).target == -1 || Register(Caller(m), Last(m).target)
    ensures var u := Return(m, v);
            var f := Last(m);
            && u.frames == m.frames[..|m.frames| - 1] && u.event == (if f.root then Returned(v) else m.event)
            && (!f.root && f.target != -1 && Caller(m).top <= |m.stack| ==> Reg(u.stack, Caller(m).base, f.target) == v)
            && (f.root ==> forall i :: 0 <= i < f.base ==> At(u.stack, i) == At(m.stack, i))
  {
  }

  /** A script resumes generator `g`, anything runs above its frame, and the frame returns or yields: the value
      goes to native code if and only if the generator had saved the root flag, and otherwise
      to the script's register. */
  lemma ResultGoesExactly(t: VM, r: Op, g: nat, above: seq<Op>, d: Op)
    requires Inv(t) && r.Resume? && Legal(t, r) && Wakes(t, r, g) && g < |t.gens| && t.gens[g].Suspended?
    requires var u := Step(t, r); Inv(u) && LegalRun(u, above) && Deep(u, above, |t.frames|)
    requires var v := Run(Step(t, r), above); |v.frames| == |t.frames| + 1 && HandsOver(v, d)
    ensures var v := Run(Step(t, r), above);
            var w := Step(v, d);
            && w.frames == t.frames
            && (w.event == Returned(Handed(v, d)) <==> t.gens[g].root)
            && (t.gens[g].root ==> Reg(w.stack, Last(t).base, r.target) == Reg(v.stack, Last(t).base, r.target))
            && (!t.gens[g].root ==> w.event == Silent && Reg(w.stack, Last(t).base, r.target) == Handed(v, d))
  {
    hide Inv, Act, LegalRun, Deep, Run, HandsOver, Handed;
    var u := Step(t, r);
    var v := Run(u, above);
    ResumeEnters(t, r, g);
    RunLocal(u, above, |t.frames|);
    HandsOverIsLegal(v, d);
    HandedOver(v, d);
    LastIsRunning(t);
    assert v.frames[..|t.frames|] == t.frames;
    assert Caller(v) == v.frames[..|t.frames|][|t.frames| - 1];
  }

  lemma HandsOverIsLegal(vm: VM, d: Op)
    requires vm.frames != [] && HandsOver(vm, d)
    ensures Legal(vm, d) && Alive(vm)
  {
  }

  lemma ResumeEnters(t: VM, r: Op, g: nat)
    requires Inv(t) && r.Resume? && Legal(t, r) && Wakes(t, r, g) && g < |t.gens| && t.gens[g].Suspended?
    ensures var u := Step(t, r);
            && |u.frames| == |t.frames| + 1 && u.frames[..|t.frames|] == t.frames
            && Last(u).target == r.target && Last(u).root == t.gens[g].root && Last(u).base == Last(t).top
  {
    hide Inv;
    LastIsRunning(t);
  }

  /** Over whole runs: what a generator that a script resumes returns or yields goes to native code if
      and only if native code resumed that generator before. */
  lemma RootDecides(vm: VM, ops: seq<Op>, g: nat, r: Op, above: seq<Op>, d: Op)
    requires Inv(vm) && LegalRun(vm, ops)
    requires var t := Run(vm, ops);
             r.Resume? && Legal(t, r) && Wakes(t, r, g) && |vm.gens| <= g < |t.gens| && t.gens[g].Suspended?
    requires var t := Run(vm, ops);
             var u := Step(t, r);
             Inv(u) && LegalRun(u, above) && Deep(u, above, |t.frames|)
    requires var t := Run(vm, ops);
             var v := Run(Step(t, r), above);
             |v.frames| == |t.frames| + 1 && HandsOver(v, d)
    ensures Step(Run(Step(Run(vm, ops), r), above), d).event.Returned? <==> EverRooted(vm, ops, g)
  {
    hide Inv, Act, LegalRun, Deep, Run, EverRooted, HandsOver, Handed;
    SavedRootExactly(vm, ops, g);
    ResultGoesExactly(Run(vm, ops), r, g, above, d);
  }

  // --------------------------------------------------------------------- a lost result

  lemma RunCons(vm: VM, op: Op, rest: seq<Op>)
    requires Inv(vm) && Legal(vm, op) && Inv(Step(vm, op)) && LegalRun(Step(vm, op), rest)
    ensures LegalRun(vm, [op] + rest) && Run(vm, [op] + rest) == Run(Step(vm, op), rest)
  {
    hide Inv, Act;
    assert ([op] + rest)[0] == op && ([op] + rest)[1..] == rest;
  }

  lemma RunOne(vm: VM, op: Op)
    requires Inv(vm) && Legal(vm, op) && Inv(Step(vm, op))
    ensures LegalRun(vm, [op]) && Run(vm, [op]) == Step(vm, op)
  {
    hide Act;
    var none: seq<Op> := [];
    assert LegalRun(Step(vm, op), none) && Run(Step(vm, op), none) == Step(vm, op);
    RunCons(vm, op, none);
    assert [op] + none == [op];
  }

  lemma HostCallEnters(vm: VM, fn: Proto)
    requires Inv(vm) && Legal(vm, HostCall(fn, 0))
    ensures var s := Step(vm, HostCall(fn, 0));
            Inv(s) && s.frames == vm.frames + [Fresh(fn, Last(vm).top, Last(vm).top, true)] && s.gens == vm.gens
  {
    StepKeepsInv(vm, HostCall(fn, 0));
  }

  /** Resuming, from native code or a script, writes nothing under the resumer's top. */
  lemma WakeEnters(vm: VM, op: Op, g: nat)
    requires Inv(vm) && Legal(vm, op) && g < |vm.gens| && vm.gens[g].Suspended? && Alive(vm)
    requires (op.HostResume? && op.g == g) || (op.Resume? && Wakes(vm, op, g))
    ensures var s := Step(vm, op);
            && Inv(s) && |s.frames| == |vm.frames| + 1 && s.frames[..|vm.frames|] == vm.frames && |s.gens| == |vm.gens|
            && s.gens[g] == Running
            && Last(s).base == Last(vm).top && Last(s).top == Last(vm).top + |vm.gens[g].regs| && Last(s).gen == Some(g)
            && Last(s).root == (op.HostResume? || vm.gens[g].root) && |Last(s).traps| == |vm.gens[g].traps|
            && SameUnder(vm.stack, s.stack, Last(vm).top)
  {
    hide Inv, Resumed, Written, Grown;
    LastIsRunning(vm);
    StepKeepsInv(vm, op);
    ResumedShape(vm.(event := Silent), g, if op.HostResume? then op.reg else op.target);
  }

  lemma ResumedShape(vm: VM, g: nat, target: int)
    requires vm.frames != [] && g < |vm.gens| && vm.gens[g].Suspended? && 0 <= Last(vm).top <= |vm.stack|
    ensures var s := Resumed(vm, g, target);
            && |s.frames| == |vm.frames| + 1 && s.frames[..|vm.frames|] == vm.frames && |s.gens| == |vm.gens|
            && s.gens[g] == Running
            && Last(s).base == Last(vm).top && Last(s).top == Last(vm).top + |vm.gens[g].regs| && Last(s).gen == Some(g)
            && Last(s).root == vm.gens[g].root && |Last(s).traps| == |vm.gens[g].traps|
            && SameUnder(vm.stack, s.stack, Last(vm).top)
  {
  }

  /** A root frame's yield writes nothing under its caller's top. */
  lemma RootYields(vm: VM)
    requires Inv(vm) && Alive(vm) && Last(vm).gen.Some? && Last(vm).root && Last(vm).base == Caller(vm).top
    ensures var s := Step(vm, Yield(false, 0, 1));
            var f := Last(vm);
            && Inv(s) && s.frames == vm.frames[..|vm.frames| - 1] && |s.gens| == |vm.gens| && f.gen.value < |s.gens|
            && s.gens[f.gen.value].Suspended? && s.gens[f.gen.value].root
            && |s.gens[f.gen.value].regs| == f.top - f.base && |s.gens[f.gen.value].traps| == |f.traps|
            && SameUnder(vm.stack, s.stack, Caller(vm).top)
  {
    hide Inv, Saved, Shift;
    var y, q := Yield(false, 0, 1), vm.(event := Silent);
    Windows(vm);
    LastIsRunning(vm);
    StepKeepsInv(vm, y);
    YieldSuspends(vm, y);
    SetKeepsInv(vm, vm.stack, Silent);
    FinishedPops(q, y);
    assert Step(vm, y) == Act(q, y);
    SuspendShape(q, Last(vm).gen.value, 1);
  }

  // Native code calls a script; the script makes a generator; native code resumes it and it
  // yields; the script resumes it and it returns 9.

  /** The script frame alone, with a suspended, flagged generator in register 1. */
  ghost predicate Flagged(vm: VM, base: int, g: nat) {
    && Inv(vm) && |vm.frames| == 2 && Last(vm).base == base && Last(vm).top >= base + 3
    && g < |vm.gens| && vm.gens[g].Suspended? && vm.gens[g].root && |vm.gens[g].regs| >= 2 && vm.gens[g].traps == []
    && Reg(vm.stack, base, 1) == Generator(g)
  }

  function FirstHalf(main: Proto, gen: Proto, g: nat): seq<Op> {
    [HostCall(main, 0)] + ([Call(gen, 2, 1)] + ([HostResume(g, 1)] + [Yield(false, 0, 1)]))
  }

  function SecondHalf(): seq<Op> {
    [Set(2, Plain(7))] + ([Resume(1, 2)] + ([Set(1, Plain(9))] + [Ret(Some(1))]))
  }

  lemma GetsFlagged(vm: VM, main: Proto, gen: Proto)
    requires Inv(vm) && |vm.frames| == 1 && main.size >= 3 && !main.generator && gen.size >= 2 && gen.generator
    ensures var ops := FirstHalf(main, gen, |vm.gens|);
            LegalRun(vm, ops) && Flagged(Run(vm, ops), Last(vm).top, |vm.gens|)
  {
    hide Inv, Act, LegalRun, Run, SameUnder, Saved, Shift;
    var g, b := |vm.gens|, Last(vm).top;
    LastIsRunning(vm);
    HostCallEnters(vm, main);
    var s1 := Step(vm, HostCall(main, 0));
    LastIsRunning(s1);
    StepKeepsInv(s1, Call(gen, 2, 1));
    GeneratorMade(s1, gen, 2, 1);
    var s2 := Step(s1, Call(gen, 2, 1));
    WakeEnters(s2, HostResume(g, 1), g);
    var s3 := Step(s2, HostResume(g, 1));
    UnderAt(s2.stack, s3.stack, b + main.size, b + 1);
    RootYields(s3);
    var s4 := Step(s3, Yield(false, 0, 1));
    UnderAt(s3.stack, s4.stack, b + main.size, b + 1);
    RunOne(s3, Yield(false, 0, 1));
    RunCons(s2, HostResume(g, 1), [Yield(false, 0, 1)]);
    RunCons(s1, Call(gen, 2, 1), [HostResume(g, 1)] + [Yield(false, 0, 1)]);
    RunCons(vm, HostCall(main, 0), [Call(gen, 2, 1)] + ([HostResume(g, 1)] + [Yield(false, 0, 1)]));
  }

  lemma FlaggedLoses(vm: VM, base: int, g: nat)
    requires Flagged(vm, base, g)
    ensures LegalRun(vm, SecondHalf())
    ensures Run(vm, SecondHalf()).event == Returned(Plain(9)) && Reg(Run(vm, SecondHalf()).stack, base, 2) == Plain(7)
  {
    hide Inv, Act, LegalRun, Run, SameUnder;
    LastIsRunning(vm);
    StepKeepsInv(vm, Set(2, Plain(7)));
    var s5 := Step(vm, Set(2, Plain(7)));
    SetOne(vm, 2, Plain(7));
    WakeEnters(s5, Resume(1, 2), g);
    var s6 := Step(s5, Resume(1, 2));
    UnderAt(s5.stack, s6.stack, Last(vm).top, base + 2);
    StepKeepsInv(s6, Set(1, Plain(9)));
    var s7 := Step(s6, Set(1, Plain(9)));
    SetOne(s6, 1, Plain(9));
    StepKeepsInv(s7, Ret(Some(1)));
    ReturnDelivers(s7, Some(1));
    RunOne(s7, Ret(Some(1)));
    RunCons(s6, Set(1, Plain(9)), [Ret(Some(1))]);
    RunCons(s5, Resume(1, 2), [Set(1, Plain(9))] + [Ret(Some(1))]);
    RunCons(vm, Set(2, Plain(7)), [Resume(1, 2)] + ([Set(1, Plain(9))] + [Ret(Some(1))]));
  }

  lemma {:induction false} RunAppend(vm: VM, a: seq<Op>, b: seq<Op>)
    requires Inv(vm) && LegalRun(vm, a) && LegalRun(Run(vm, a), b)
    ensures LegalRun(vm, a + b) && Run(vm, a + b) == Run(Run(vm, a), b)
    decreases |a|
  {
    hide Act;
    if a == [] {
      assert a + b == b;
    } else {
      StepKeepsInv(vm, a[0]);
      assert (a + b)[0] == a[0] && (a + b)[1..] == a[1..] + b;
      RunAppend(Step(vm, a[0]), a[1..], b);
    }
  }

  /** The generator's result is lost: the run is legal, the return of 9 goes to native code,
      and the script's register keeps its old 7. */
  lemma ResultLost(vm: VM, main: Proto, gen: Proto)
    requires Inv(vm) && |vm.frames| == 1 && main.size >= 3 && !main.generator && gen.size >= 2 && gen.generator
    ensures var ops := FirstHalf(main, gen, |vm.gens|) + SecondHalf();
            && LegalRun(vm, ops)
            && Run(vm, ops).event == Returned(Plain(9))
            && Reg(Run(vm, ops).stack, Last(vm).top, 2) == Plain(7)
  {
    hide Act, LegalRun, Run, FirstHalf, SecondHalf, Inv;
    GetsFlagged(vm, main, gen);
    var mid := Run(vm, FirstHalf(main, gen, |vm.gens|));
    FlaggedLoses(mid, Last(vm).top, |vm.gens|);
    RunAppend(vm, FirstHalf(main, gen, |vm.gens|), SecondHalf());
  }

  /** The machine as it is constructed meets the premise. */
  lemma NewMachine(size: nat)
    requires size > OVERHEAD
    ensures Inv(VM([Frame(0, 1, -1, 0, 0, 0, None, false, [])], seq(size, _ => Null), [], Silent))
  {
  }

  lemma UnderAt(a: seq<Value>, b: seq<Value>, limit: int, i: int)
    requires SameUnder(a, b, limit) && 0 <= i < limit
    ensures At(b, i) == At(a, i)
  {
  }

  lemma SetOne(vm: VM, reg: int, v: Value)
    requires Inv(vm) && Legal(vm, Set(reg, v))
    ensures var s := Step(vm, Set(reg, v));
            && s.frames == vm.frames && s.gens == vm.gens
            && (forall r :: At(s.stack, r) == if r == Last(vm).base + reg then v else At(vm.stack, r))
  {
    hide Inv;
    LastIsRunning(vm);
  }
}
