/** Frames and captured variables together: which stack slots have an open outer while
    calls, throws and generators run, and what a catch does to them. */
module Captures {
  import opened Frames

  /** The machine and the slots that an open outer points at. */
  datatype State = State(vm: VM, open: set<int>)

  datatype Move = Do(op: Op) | Capture(reg: int) | CloseFrom(reg: int)

  /** Closing every outer at or above `from`. */
  function Kept(open: set<int>, from: int): (r: set<int>)
    ensures forall i :: i in r <==> i in open && i < from
  {
    set i | i in open && i < from
  }

  /** Every frame that a throw leaves closes its outers; the frame that catches closes none. */
  ghost function Unwound(vm: VM, open: set<int>): set<int>
    requires vm.frames != []
    decreases |vm.frames|
  {
    if !Alive(vm) || Last(vm).traps != [] then open
    else if Last(vm).root then Kept(open, Last(vm).base)
    else Unwound(Leave(Killed(vm, Last(vm).gen)), Kept(open, Last(vm).base))
  }

  /** What stays open: leaving, yielding and tail-calling close the frame's outers. */
  ghost function OpenAfter(vm: VM, op: Op, open: set<int>): set<int>
    requires vm.frames != []
  {
    match op
    case Ret(_) => Kept(open, Last(vm).base)
    case TailCall(_, _, _) => Kept(open, Last(vm).base)
    case Yield(_, _, _) => if Last(vm).gen.Some? then Kept(open, Last(vm).base) else Unwound(vm, open)
    case Call(fn, at, _) => if fn.generator then Kept(open, Last(vm).base + at) else open
    case Raise(_) => Unwound(vm, open)
    case Resume(reg, _) =>
      var v := At(vm.stack, Last(vm).base + reg);
      if v.Generator? && v.id < |vm.gens| && vm.gens[v.id].Suspended? then open else Unwound(vm, open)
    case _ => open
  }

  /** Captured variables are locals, which lie below the window of every call. */
  ghost predicate Fine(s: State, a: Move)
    requires s.vm.frames != []
  {
    match a
    case Do(op) =>
      && Legal(s.vm, op) && !Outgrows(s.vm, op)
      && (op.Call? ==> forall i :: i in s.open ==> i < Last(s.vm).base + op.at)
      && (op.HostCall? ==> forall i :: i in s.open ==> i < Last(s.vm).top - op.nargs)
    case Capture(reg) => Alive(s.vm) && Register(Last(s.vm), reg)
    case CloseFrom(reg) => Alive(s.vm) && Register(Last(s.vm), reg)
  }

  ghost function Next(s: State, a: Move): State
    requires s.vm.frames != [] && Fine(s, a)
  {
    match a
    case Do(op) => State(Step(s.vm, op), OpenAfter(s.vm, op, s.open))
    case Capture(reg) => s.(open := s.open + {Last(s.vm).base + reg})
    case CloseFrom(reg) => s.(open := Kept(s.open, Last(s.vm).base + reg))
  }

  // ------------------------------------------------------------------- ownership

  /** Slot `i` lies in the window of frame `k`, below the frame called from it. */
  predicate Owns(vm: VM, k: int, i: int) {
    && 0 <= k < |vm.frames| && vm.frames[k].base <= i < vm.frames[k].top
    && (k + 1 < |vm.frames| ==> i < vm.frames[k + 1].base)
  }

  ghost predicate Owned(vm: VM, i: int) {
    exists k :: Owns(vm, k, i)
  }

  ghost predicate AllOwned(s: State) {
    forall i :: i in s.open ==> Owned(s.vm, i)
  }

  ghost predicate Good(s: State) {
    Inv(s.vm) && Tight(s.vm) && AllOwned(s)
  }

  lemma OwnedBelowTop(vm: VM, i: int)
    requires Inv(vm) && Owned(vm, i)
    ensures i < Last(vm).top
  {
    hide Inv;
    var k :| Owns(vm, k, i);
    var n := |vm.frames| - 1;
    Inside(vm, n);
    if k < n { BasesAscend(vm, k + 1, n); }
  }

  lemma OwnedKept(vm: VM, after: VM, i: int)
    requires Owned(vm, i) && |after.frames| == |vm.frames| > 0
    requires after.frames[..|vm.frames| - 1] == vm.frames[..|vm.frames| - 1]
    requires Last(after).base == Last(vm).base && Last(after).top >= Last(vm).top
    ensures Owned(after, i)
  {
    var n := |vm.frames| - 1;
    var k :| Owns(vm, k, i);
    assert forall j :: 0 <= j < n ==> after.frames[j] == after.frames[..n][j] == vm.frames[j];
    assert Owns(after, k, i);
  }

  lemma OwnedDeeper(vm: VM, after: VM, i: int)
    requires Owned(vm, i) && |after.frames| == |vm.frames| + 1 && after.frames[..|vm.frames|] == vm.frames && i < Last(after).base
    ensures Owned(after, i)
  {
    var k :| Owns(vm, k, i);
    assert forall j :: 0 <= j < |vm.frames| ==> after.frames[j] == after.frames[..|vm.frames|][j] == vm.frames[j];
    assert Owns(after, k, i);
  }

  lemma OwnedOutside(vm: VM, left: VM, i: int)
    requires Owned(vm, i) && vm.frames != [] && left.frames == vm.frames[..|vm.frames| - 1] && i < Last(vm).base
    ensures Owned(left, i)
  {
    var k :| Owns(vm, k, i);
    assert Owns(left, k, i);
  }

  // ----------------------------------------------------------------------- steps

  lemma {:induction false} UnwindOwned(vm: VM, open: set<int>, err: Value, limit: int)
    requires Good(State(vm, open))
    ensures AllOwned(State(Unwind(vm, err, limit), Unwound(vm, open)))
    decreases |vm.frames|
  {
    hide Inv, Tight, Owned;
    LastIsRunning(vm);
    var r := Unwind(vm, err, limit);
    if !Alive(vm) {
      forall i | i in open ensures Owned(r, i) { OwnedKept(vm, r, i); }
    } else if Last(vm).traps != [] {
      LandTop(vm, err, limit);
      forall i | i in open ensures Owned(r, i) { OwnedKept(vm, r, i); }
    } else {
      var left := Leave(Killed(vm, Last(vm).gen));
      LeftInv(vm);
      LeftTight(vm);
      var rest := Kept(open, Last(vm).base);
      forall i | i in rest ensures Owned(left, i) { OwnedOutside(vm, left, i); }
      if Last(vm).root {
        forall i | i in rest ensures Owned(r, i) { OwnedOutside(vm, r, i); }
      } else {
        UnwindOwned(left, rest, err, limit);
      }
    }
  }

  /** With tight handlers a catch keeps the frame's window. */
  lemma LandTop(vm: VM, err: Value, limit: int)
    requires vm.frames != [] && Last(vm).traps != [] && Tight(vm)
    ensures var r := Land(vm, err, limit);
            && |r.frames| == |vm.frames| && r.frames[..|vm.frames| - 1] == vm.frames[..|vm.frames| - 1]
            && Last(r).base == Last(vm).base && Last(r).top == Last(vm).top
  {
    assert TightFrame(Last(vm));
  }

  lemma LeftTight(vm: VM)
    requires Alive(vm) && Tight(vm)
    ensures Tight(Leave(Killed(vm, Last(vm).gen)))
  {
  }

  lemma EditOwned(s: State, op: Op)
    requires Good(s) && Legal(s.vm, op) && (op.Set? || op.Jump? || op.PushTrap? || op.PopTrap?)
    ensures AllOwned(Next(s, Do(op)))
  {
    hide Inv, Tight, Owned;
    LastIsRunning(s.vm);
    var r := Step(s.vm, op);
    forall i | i in s.open ensures Owned(r, i) { OwnedKept(s.vm, r, i); }
  }

  lemma TailOwned(s: State, op: Op)
    requires Good(s) && Fine(s, Do(op)) && op.TailCall?
    ensures AllOwned(Next(s, Do(op)))
  {
    hide Inv, Tight, Owned, Outgrows, Act;
    LastIsRunning(s.vm);
    TailCallReplaces(s.vm, op.fn, op.from, op.nargs);
    var r := Step(s.vm, op);
    forall i | i in Kept(s.open, Last(s.vm).base) ensures Owned(r, i) { OwnedKept(s.vm, r, i); }
  }

  lemma LeaveOwned(s: State, op: Op)
    requires Good(s) && Legal(s.vm, op) && (op.Ret? || (op.Yield? && Last(s.vm).gen.Some?))
    ensures AllOwned(Next(s, Do(op)))
  {
    hide Inv, Tight, Owned, Act;
    LastIsRunning(s.vm);
    SetKeepsInv(s.vm, s.vm.stack, Silent);
    FinishedPops(s.vm.(event := Silent), op);
    var r := Step(s.vm, op);
    forall i | i in Kept(s.open, Last(s.vm).base) ensures Owned(r, i) { OwnedOutside(s.vm, r, i); }
  }

  lemma CallOwned(s: State, op: Op)
    requires Good(s) && Fine(s, Do(op)) && op.Call?
    ensures AllOwned(Next(s, Do(op)))
  {
    hide Inv, Tight, Owned, Act;
    LastIsRunning(s.vm);
    var r := Step(s.vm, op);
    if op.fn.generator {
      GeneratorMade(s.vm, op.fn, op.at, op.target);
      forall i | i in Kept(s.open, Last(s.vm).base + op.at) ensures Owned(r, i) { OwnedKept(s.vm, r, i); }
    } else {
      CallEnters(s.vm, op.fn, op.at, op.target);
      forall i | i in s.open ensures Owned(r, i) { OwnedDeeper(s.vm, r, i); }
    }
  }

  lemma HostOwned(s: State, op: Op)
    requires Good(s) && Fine(s, Do(op)) && (op.HostCall? || op.HostResume?)
    ensures AllOwned(Next(s, Do(op)))
  {
    hide Inv, Tight, Owned;
    LastIsRunning(s.vm);
    var r := Step(s.vm, op);
    forall i | i in s.open ensures Owned(r, i) {
      OwnedBelowTop(s.vm, i);
      if |r.frames| == |s.vm.frames| { OwnedKept(s.vm, r, i); } else { OwnedDeeper(s.vm, r, i); }
    }
  }

  lemma ResumeOwned(s: State, op: Op)
    requires Good(s) && Legal(s.vm, op) && op.Resume?
    ensures AllOwned(Next(s, Do(op)))
  {
    hide Inv, Tight, Owned, Unwind, Unwound, Resumed;
    LastIsRunning(s.vm);
    var q := s.vm.(event := Silent);
    var v := At(q.stack, Last(q).base + op.reg);
    if v.Generator? && v.id < |q.gens| && q.gens[v.id].Suspended? {
      ResumedDeeper(q, v.id, op.target);
      forall i | i in s.open ensures Owned(Step(s.vm, op), i) {
        OwnedBelowTop(s.vm, i);
        OwnedDeeper(s.vm, Step(s.vm, op), i);
      }
    } else {
      ThrowOwned(s, Message);
    }
  }

  lemma ResumedDeeper(vm: VM, g: nat, target: int)
    requires vm.frames != [] && g < |vm.gens| && vm.gens[g].Suspended?
    ensures var r := Resumed(vm, g, target);
            |r.frames| == |vm.frames| + 1 && r.frames[..|vm.frames|] == vm.frames && Last(r).base == Last(vm).top
  {
  }

  lemma ThrowOwned(s: State, err: Value)
    requires Good(s)
    ensures AllOwned(State(Throw(s.vm.(event := Silent), err), Unwound(s.vm, s.open)))
  {
    hide Inv, Tight, Unwind;
    LastIsRunning(s.vm);
    var q := s.vm.(event := Silent);
    SetKeepsInv(s.vm, s.vm.stack, Silent);
    SilentSame(s.vm, s.open);
    UnwindOwned(q, s.open, err, Last(q).top);
  }

  lemma {:induction false} SilentSame(vm: VM, open: set<int>)
    requires Good(State(vm, open))
    ensures Good(State(vm.(event := Silent), open)) && Unwound(vm.(event := Silent), open) == Unwound(vm, open)
    decreases |vm.frames|
  {
    hide Inv, Owned, Tight;
    LastIsRunning(vm);
    SetKeepsInv(vm, vm.stack, Silent);
    assert Tight(vm.(event := Silent)) by { SilentTight(vm); }
    forall i | i in open ensures Owned(vm.(event := Silent), i) { OwnedKept(vm, vm.(event := Silent), i); }
    if Alive(vm) && Last(vm).traps == [] && !Last(vm).root {
      var left, rest := Leave(Killed(vm, Last(vm).gen)), Kept(open, Last(vm).base);
      LeftInv(vm);
      LeftTight(vm);
      forall i | i in rest ensures Owned(left, i) { OwnedOutside(vm, left, i); }
      SilentSame(left, rest);
      assert Leave(Killed(vm.(event := Silent), Last(vm).gen)) == left.(event := Silent);
    }
  }

  lemma SilentTight(vm: VM)
    requires Tight(vm)
    ensures Tight(vm.(event := Silent))
  {
  }

  /** Over every step, every open outer lies in the window of a live frame, below whatever it calls. */
  lemma NextGood(s: State, a: Move)
    requires Good(s) && Fine(s, a)
    ensures Good(Next(s, a))
  {
    hide Inv, Tight, Act, Unwind, Unwound;
    LastIsRunning(s.vm);
    match a
    case Capture(reg) =>
      assert Owns(s.vm, |s.vm.frames| - 1, Last(s.vm).base + reg);
    case CloseFrom(_) =>
    case Do(op) =>
      StepKeepsInv(s.vm, op);
      StepTight(s.vm, op);
      hide Owned, AllOwned;
      match op
      case Ret(_) => LeaveOwned(s, op);
      case TailCall(_, _, _) => TailOwned(s, op);
      case Call(_, _, _) => CallOwned(s, op);
      case HostCall(_, _) => HostOwned(s, op);
      case HostResume(_, _) => HostOwned(s, op);
      case Resume(_, _) => ResumeOwned(s, op);
      case Yield(has, reg, live) => if Last(s.vm).gen.Some? { LeaveOwned(s, op); } else { OutsideOwned(s, has, reg, live); }
      case Raise(err) => RaiseOwned(s, err);
      case _ => EditOwned(s, op);
  }

  lemma RaiseOwned(s: State, err: Value)
    requires Good(s)
    ensures AllOwned(Next(s, Do(Raise(err))))
  {
    hide Inv, Tight, Unwind, Unwound;
    ThrowOwned(s, err);
  }

  lemma OutsideOwned(s: State, has: bool, reg: int, live: int)
    requires Good(s) && Legal(s.vm, Yield(has, reg, live)) && Last(s.vm).gen.None?
    ensures AllOwned(Next(s, Do(Yield(has, reg, live))))
  {
    hide Inv, Tight, Unwind, Unwound;
    ThrowOwned(s, Message);
  }

  ghost predicate FineRun(s: State, moves: seq<Move>)
    requires Good(s)
    decreases |moves|
  {
    moves == [] || (Fine(s, moves[0]) && (NextGood(s, moves[0]); FineRun(Next(s, moves[0]), moves[1..])))
  }

  ghost function Run(s: State, moves: seq<Move>): (r: State)
    requires Good(s) && FineRun(s, moves)
    ensures Good(r)
    decreases |moves|
  {
    if moves == [] then s else
      NextGood(s, moves[0]);
      Run(Next(s, moves[0]), moves[1..])
  }

  // --------------------------------------------------------------------- catching

  /** The open outers of the frames up to the catching one stay open, and no others. */
  lemma {:induction false} UnwoundExactly(vm: VM, open: set<int>, k: int)
    requires Inv(vm) && Catches(vm, k)
    ensures Unwound(vm, open) == if k == |vm.frames| - 1 then open else Kept(open, vm.frames[k + 1].base)
    decreases |vm.frames|
  {
    hide Inv;
    var n := |vm.frames| - 1;
    if k < n {
      var left := Leave(Killed(vm, Last(vm).gen));
      LeftInv(vm);
      UnwoundExactly(left, Kept(open, Last(vm).base), k);
      BasesAscend(vm, k + 1, n);
    }
  }

  /** A throw that frame `k` catches leaves every captured variable's value as it was. */
  ghost predicate CatchKeeps(vm: VM, open: set<int>, err: Value)
    requires vm.frames != []
  {
    forall i :: i in Unwound(vm, open) ==> At(Throw(vm, err).stack, i) == At(vm.stack, i)
  }

  /** Landing in a handler closes no outer of its frame, and its register may be one a closure
      captured: captured variables keep their values, for every error, if and only if no
      open outer points at the handler's register; if one does, it holds the error. */
  lemma CatchExactly(vm: VM, open: set<int>, k: int)
    requires Good(State(vm, open)) && Catches(vm, k)
    ensures var f := vm.frames[k];
            var slot := f.base + f.traps[|f.traps| - 1].target;
            && ((forall err :: CatchKeeps(vm, open, err)) <==> slot !in Unwound(vm, open))
            && (forall err :: At(Throw(vm, err).stack, slot) == err)
  {
    hide Inv, Unwind, Owned, Tight, Unwound;
    var f := vm.frames[k];
    var slot := f.base + f.traps[|f.traps| - 1].target;
    LastIsRunning(vm);
    forall err ensures At(Throw(vm, err).stack, slot) == err { ThrowLands(vm, err, Last(vm).top, k); }
    if slot in Unwound(vm, open) {
      var err := if At(vm.stack, slot) == Null then Message else Null;
      assert At(Throw(vm, err).stack, slot) == err;
      assert !CatchKeeps(vm, open, err);
    } else {
      forall err ensures CatchKeeps(vm, open, err) {
        ThrowLands(vm, err, Last(vm).top, k);
        forall i | i in Unwound(vm, open) ensures At(Throw(vm, err).stack, i) == At(vm.stack, i) {
          UnwoundExactly(vm, open, k);
          SafeSlot(vm, k, i);
        }
      }
    }
  }

  lemma SafeSlot(vm: VM, k: int, i: int)
    requires Inv(vm) && Tight(vm) && Owned(vm, i) && Catches(vm, k) && (k + 1 < |vm.frames| ==> i < vm.frames[k + 1].base)
    ensures 0 <= i < Safe(vm, k)
  {
    hide Inv;
    var m :| Owns(vm, m, i);
    Inside(vm, m);
    Inside(vm, k);
    assert TightFrame(vm.frames[k]);
    if m < k { BasesAscend(vm, m + 1, k); }
    if m > k { BasesAscend(vm, k + 1, m); }
  }

  /** The first local of a try block and the catch variable share a register: a closure that captured
      the local reads the error afterwards. */
  lemma CapturedLocalLost(s: State, ip: nat, reg: nat, err: Value)
    requires Good(s) && Alive(s.vm) && Register(Last(s.vm), reg)
    ensures var t := Next(s, Do(PushTrap(ip, reg)));
            && Good(t)
            && var u := Next(t, Capture(reg));
            && Good(u) && Fine(u, Do(Raise(err)))
            && var w := Next(u, Do(Raise(err)));
            Last(s.vm).base + reg in w.open && Reg(w.vm.stack, Last(s.vm).base, reg) == err
  {
    hide Inv, Tight, Unwind, Unwound;
    LastIsRunning(s.vm);
    NextGood(s, Do(PushTrap(ip, reg)));
    var t := Next(s, Do(PushTrap(ip, reg)));
    NextGood(t, Capture(reg));
    var u := Next(t, Capture(reg));
    var q, k := u.vm.(event := Silent), |u.vm.frames| - 1;
    SilentSame(u.vm, u.open);
    assert Catches(q, k);
    ThrowLands(q, err, Last(q).top, k);
    UnwoundExactly(q, u.open, k);
  }
}
