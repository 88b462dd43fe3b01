/** What calls, returns, traps, throws and generators mean: a list of frames,
    each holding its own handlers, over one flat register stack.  The virtual
    machine that keeps one trap stack and relative offsets is in Machine. */
module Frames {
  import opened Common
  import Bytecode

  datatype Value = Null | Plain(n: int) | Generator(id: nat) | Message

  /** A script function: its first instruction, its register count, its kind. */
  datatype Proto = Proto(entry: nat, size: nat, generator: bool)

  /** A catch block: where it starts, the frame size to go back to, its register. */
  datatype Handler = Handler(ip: nat, top: int, target: nat)

  /** An activation.  `target` is the caller's register for the result, -1 for none. */
  datatype Frame = Frame(base: int, top: int, target: int, fn: nat, ip: nat, ncalls: nat,
                         gen: Option<nat>, root: bool, traps: seq<Handler>)

  /** A suspended generator keeps its registers and, relative to its base, its handlers. */
  datatype Gen =
    | Running
    | Dead
    | Suspended(regs: seq<Value>, fn: nat, ip: nat, ncalls: nat, root: bool, traps: seq<Handler>)

  /** What the last step handed to the native code that started the innermost run. */
  datatype Event = Silent | Returned(value: Value) | Uncaught(error: Value)

  /** `frames[0]` stands for the native code below every script frame. */
  datatype VM = VM(frames: seq<Frame>, stack: seq<Value>, gens: seq<Gen>, event: Event)

  // ---------------------------------------------------------------- registers

  /** The stack keeps this many slots above every frame. */
  const OVERHEAD: int := 15

  function Grown(stack: seq<Value>, top: int): (r: seq<Value>)
    ensures |stack| <= |r| && top + OVERHEAD <= |r|
  {
    if top + OVERHEAD > |stack|
    then stack + seq(top + 4 * OVERHEAD - |stack|, _ => Null)
    else stack
  }

  /** The slots from `low` up to and including `high` set to null. */
  function Cleared(stack: seq<Value>, low: int, high: int): (r: seq<Value>)
    ensures |r| == |stack|
  {
    seq(|stack|, i requires 0 <= i < |stack| => if low <= i <= high then Null else stack[i])
  }

  function Put(stack: seq<Value>, i: int, v: Value): (r: seq<Value>)
    ensures |r| == |stack|
  {
    if 0 <= i < |stack| then stack[i := v] else stack
  }

  function At(stack: seq<Value>, i: int): Value {
    if 0 <= i < |stack| then stack[i] else Null
  }

  /** Register `r` of the frame at `base`. */
  function Reg(stack: seq<Value>, base: int, r: int): Value {
    At(stack, base + r)
  }

  /** `regs` written from slot `base` on. */
  function Written(stack: seq<Value>, base: int, regs: seq<Value>): (r: seq<Value>)
    ensures |r| == |stack|
  {
    seq(|stack|, i requires 0 <= i < |stack| => if base <= i < base + |regs| then regs[i - base] else stack[i])
  }

  /** The registers a generator saves: itself, then the live ones, then null. */
  function Saved(stack: seq<Value>, base: int, size: nat, live: int): (r: seq<Value>)
    ensures |r| == size
    ensures forall i :: 0 <= i < size ==> r[i] == if i == 0 || i < live then At(stack, base + i) else Null
  {
    seq(size, i => if i == 0 || i < live then At(stack, base + i) else Null)
  }

  // ------------------------------------------------------------------- frames

  function Shift(traps: seq<Handler>, d: int): (r: seq<Handler>)
    ensures |r| == |traps|
  {
    seq(|traps|, i requires 0 <= i < |traps| => traps[i].(top := traps[i].top + d))
  }

  predicate Alive(vm: VM) { |vm.frames| >= 2 }

  function Last(vm: VM): Frame
    requires vm.frames != []
  {
    vm.frames[|vm.frames| - 1]
  }

  function Caller(vm: VM): Frame
    requires Alive(vm)
  {
    vm.frames[|vm.frames| - 2]
  }

  function WithLast(vm: VM, f: Frame): VM
    requires vm.frames != []
  {
    vm.(frames := vm.frames[..|vm.frames| - 1] + [f])
  }

  function WithGen(vm: VM, g: nat, gen: Gen): VM {
    if g < |vm.gens| then vm.(gens := vm.gens[g := gen]) else vm
  }

  function Entered(vm: VM, f: Frame): VM {
    vm.(frames := vm.frames + [f], stack := Grown(vm.stack, f.top))
  }

  /** The frame goes; the slots from the caller's top up are cleared. */
  function Leave(vm: VM): VM
    requires Alive(vm)
  {
    vm.(frames := vm.frames[..|vm.frames| - 1],
        stack := Cleared(vm.stack, Caller(vm).top, Last(vm).top))
  }

  /** The frame ends with `v`: to native code for a root frame, else to its target. */
  function Return(vm: VM, v: Value): VM
    requires Alive(vm)
  {
    var f := Last(vm);
    if f.root then Leave(vm).(event := Returned(v))
    else if f.target == -1 then Leave(vm)
    else Leave(vm.(stack := Put(vm.stack, Caller(vm).base + f.target, v)))
  }

  function Killed(vm: VM, g: Option<nat>): VM {
    if g.Some? then WithGen(vm, g.value, Dead) else vm
  }

  /** Control goes to the frame's last handler. */
  function Land(vm: VM, err: Value, limit: int): VM
    requires vm.frames != [] && Last(vm).traps != []
  {
    var f := Last(vm);
    var t := f.traps[|f.traps| - 1];
    var g := f.(ip := t.ip, top := t.top, traps := f.traps[..|f.traps| - 1]);
    WithLast(vm, g).(stack := Cleared(Put(vm.stack, f.base + t.target, err), t.top, limit))
  }

  /** Frames are left, their generators killed, until one has a handler or a
      root frame has been left. */
  function Unwind(vm: VM, err: Value, limit: int): VM
    requires vm.frames != []
    decreases |vm.frames|
  {
    if !Alive(vm) then vm.(event := Uncaught(err))
    else if Last(vm).traps != [] then Land(vm, err, limit)
    else
      var left := Leave(Killed(vm, Last(vm).gen));
      if Last(vm).root then left.(event := Uncaught(err)) else Unwind(left, err, limit)
  }

  function Throw(vm: VM, err: Value): VM
    requires vm.frames != []
  {
    Unwind(vm, err, Last(vm).top)
  }

  /** The innermost frame's registers, position and handlers move into generator `g`. */
  function Suspend(vm: VM, g: nat, live: int): VM
    requires vm.frames != []
  {
    var f := Last(vm);
    var size := if f.top >= f.base then f.top - f.base else 0;
    var s := Suspended(Saved(vm.stack, f.base, size, live), f.fn, f.ip, f.ncalls, f.root, Shift(f.traps, -f.base));
    WithGen(WithLast(vm, f.(traps := [])), g, s).(stack := Cleared(vm.stack, f.base, f.base + size - 1))
  }

  // -------------------------------------------------------------------- steps

  datatype Op =
    | Set(reg: int, value: Value)
    | Jump(ip: nat)
    | HostCall(fn: Proto, nargs: nat)
    | HostResume(g: nat, reg: int)
    | Call(fn: Proto, at: int, target: int)
    | TailCall(fn: Proto, from: int, nargs: nat)
    | Ret(result: Option<int>)
    | PushTrap(ip: nat, catcher: nat)
    | PopTrap(count: nat)
    | Raise(error: Value)
    | Yield(has: bool, reg: int, live: int)
    | Resume(reg: int, target: int)

  /** A fresh activation of `fn`. */
  function Fresh(fn: Proto, base: int, target: int, root: bool): Frame {
    Frame(base, base + fn.size, target, fn.entry, fn.entry, 1, None, root, [])
  }

  /** A generator function's call makes a suspended generator and no frame. */
  function MakeGenerator(vm: VM, fn: Proto, at: int, target: int): VM
    requires vm.frames != []
  {
    var g := |vm.gens|;
    var inner := Entered(vm.(gens := vm.gens + [Running]), Fresh(fn, Last(vm).base + at, target, false));
    var back := Leave(Suspend(inner, g, fn.size));
    back.(stack := Put(back.stack, Last(vm).base + target, Generator(g)))
  }

  /** Generator `g` runs again in a frame above the present one. */
  function Resumed(vm: VM, g: nat, target: int): VM
    requires vm.frames != [] && g < |vm.gens| && vm.gens[g].Suspended?
  {
    var s := vm.gens[g];
    var base := Last(vm).top;
    var f := Frame(base, base + |s.regs|, target, s.fn, s.ip, s.ncalls, Some(g), s.root, Shift(s.traps, base));
    var inner := WithGen(Entered(vm, f), g, Running);
    inner.(stack := Written(inner.stack, base, s.regs))
  }

  function Slice(stack: seq<Value>, low: int, n: nat): (r: seq<Value>)
    ensures |r| == n
    ensures forall i :: 0 <= i < n ==> r[i] == At(stack, low + i)
  {
    seq(n, i => At(stack, low + i))
  }

  function Moved(stack: seq<Value>, base: int, from: int, nargs: nat): seq<Value> {
    Written(stack, base, Slice(stack, base + from, nargs))
  }

  /** The callee takes over the frame: its arguments move down, its window never shrinks. */
  function Replaced(vm: VM, fn: Proto, from: int, nargs: nat): VM
    requires vm.frames != []
  {
    var f := Last(vm);
    var top := if f.top >= f.base + fn.size then f.top else f.base + fn.size;
    WithLast(vm, f.(top := top, fn := fn.entry, ip := fn.entry, ncalls := f.ncalls + 1))
    .(stack := Grown(Moved(vm.stack, f.base, from, nargs), f.base + fn.size))
  }

  function Finished(vm: VM, result: Option<int>): VM
    requires Alive(vm)
  {
    Return(Killed(vm, Last(vm).gen), if result.Some? then At(vm.stack, Last(vm).base + result.value) else Null)
  }

  /** The state between a generator's suspension and the return that follows. */
  function Vacated(vm: VM, g: nat, reg: int, live: int): VM
    requires vm.frames != []
  {
    var s := Suspend(vm, g, live);
    s.(stack := Put(s.stack, Last(vm).base + reg, At(vm.stack, Last(vm).base + reg)))
  }

  function Yielded(vm: VM, has: bool, reg: int, live: int): VM
    requires Alive(vm)
  {
    var f := Last(vm);
    if f.gen.None? then Throw(vm, Message)
    else
      var v := At(vm.stack, f.base + reg);
      var s := Suspend(vm, f.gen.value, live);
      Return(s.(stack := Put(s.stack, f.base + reg, v)), if has then v else Null)
  }

  function Woken(vm: VM, reg: int, target: int): VM
    requires vm.frames != []
  {
    var v := At(vm.stack, Last(vm).base + reg);
    if v.Generator? && v.id < |vm.gens| && vm.gens[v.id].Suspended?
    then Resumed(vm, v.id, target)
    else Throw(vm, Message)
  }

  /** Native code resumes the generator: its frame becomes a root frame. */
  function WokenByHost(vm: VM, g: nat, reg: int): VM
    requires vm.frames != [] && g < |vm.gens|
  {
    if vm.gens[g].Suspended? then
      var r := Resumed(vm, g, reg);
      WithLast(r, Last(r).(root := true))
    else vm.(event := Uncaught(Message))
  }

  function Called(vm: VM, fn: Proto, at: int, target: int): VM
    requires vm.frames != []
  {
    if fn.generator then MakeGenerator(vm, fn, at, target)
    else Entered(vm, Fresh(fn, Last(vm).base + at, target, false))
  }

  function CalledByHost(vm: VM, fn: Proto, nargs: nat): VM
    requires vm.frames != []
  {
    var base := Last(vm).top - nargs;
    Entered(vm, Fresh(fn, base, base, true))
  }

  function Trapped(vm: VM, ip: nat, catcher: nat): VM
    requires vm.frames != []
  {
    var f := Last(vm);
    WithLast(vm, f.(traps := f.traps + [Handler(ip, f.top, catcher)]))
  }

  function Untrapped(vm: VM, count: nat): VM
    requires vm.frames != [] && count <= |Last(vm).traps|
  {
    var f := Last(vm);
    WithLast(vm, f.(traps := f.traps[..|f.traps| - count]))
  }

  /** What one instruction, or one call from native code, does. */
  function Act(vm: VM, op: Op): VM
    requires vm.frames != [] && Legal(vm, op)
  {
    match op
    case Set(reg, v) => vm.(stack := Put(vm.stack, Last(vm).base + reg, v))
    case Jump(ip) => WithLast(vm, Last(vm).(ip := ip))
    case HostCall(fn, nargs) => CalledByHost(vm, fn, nargs)
    case HostResume(g, reg) => WokenByHost(vm, g, reg)
    case Call(fn, at, target) => Called(vm, fn, at, target)
    case TailCall(fn, from, nargs) => Replaced(vm, fn, from, nargs)
    case Ret(result) => Finished(vm, result)
    case PushTrap(ip, catcher) => Trapped(vm, ip, catcher)
    case PopTrap(count) => Untrapped(vm, count)
    case Raise(error) => Throw(vm, error)
    case Yield(has, reg, live) => Yielded(vm, has, reg, live)
    case Resume(reg, target) => Woken(vm, reg, target)
  }

  function Step(vm: VM, op: Op): VM
    requires vm.frames != [] && Legal(vm, op)
  {
    Act(vm.(event := Silent), op)
  }

  /** The operand is one of the frame's registers. */
  predicate Register(f: Frame, r: int) { 0 <= r < f.top - f.base }

  /** What the compiler guarantees of the instruction it emits at this point.  A call's
      target is its operand read as a signed byte; `CallTargetExactly` has the operands
      for which that is not the register the compiler chose. */
  predicate Legal(vm: VM, op: Op)
    requires vm.frames != []
  {
    var f := Last(vm);
    match op
    case Set(reg, v) => Register(f, reg) && (v.Generator? ==> v.id < |vm.gens|)
    case Jump(ip) => Alive(vm)
    case HostCall(fn, nargs) => fn.size >= 1 && f.base < f.top - nargs && !fn.generator
    case HostResume(g, reg) => g < |vm.gens| && Register(f, reg)
    case Call(fn, at, target) => (Alive(vm) && fn.size >= 1 && 1 <= at && f.base + at <= f.top
                                  && (target == -1 || Register(f, target)))
    case TailCall(fn, from, nargs) => (Alive(vm) && fn.size >= 1 && 0 <= from && !fn.generator
                                       && f.base + from + nargs <= f.top)
    case Ret(result) => Alive(vm) && f.traps == [] && (result.Some? ==> Register(f, result.value))
    case PushTrap(ip, catcher) => Alive(vm) && Register(f, catcher)
    case PopTrap(count) => Alive(vm) && count <= |f.traps|
    case Raise(error) => true
    case Yield(has, reg, live) => Alive(vm) && Register(f, reg) && live <= f.top - f.base
    case Resume(reg, target) => Alive(vm) && Register(f, reg) && Register(f, target)
  }

  // --------------------------------------------------------------- invariants

  /** A frame sits above its caller's base, has at least one register, and
      returns into its caller's window unless native code started it. */
  predicate Nested(caller: Frame, f: Frame) {
    && caller.base < f.base <= caller.top
    && (f.root || f.target == -1 || Register(caller, f.target))
  }

  predicate Sized(f: Frame, room: int) {
    && 0 <= f.base < f.top
    && f.top + OVERHEAD <= room
    && (forall i :: 0 <= i < |f.traps| ==> f.base < f.traps[i].top <= f.top && f.traps[i].target < f.traps[i].top - f.base)
    && (forall i, j :: 0 <= i < j < |f.traps| ==> f.traps[i].top <= f.traps[j].top)
  }

  predicate Names(vm: VM, k: int, g: int) {
    0 <= k < |vm.frames| && vm.frames[k].gen.Some? && vm.frames[k].gen.value == g
  }

  /** Running generators are exactly the ones a live frame names, and no two frames name the same. */
  ghost predicate OneFrameEach(vm: VM) {
    && (forall g | 0 <= g < |vm.gens| && vm.gens[g].Running? :: exists k :: Names(vm, k, g))
    && (forall k, g | Names(vm, k, g) :: g < |vm.gens| && vm.gens[g].Running?)
    && (forall j, k, g | Names(vm, j, g) && Names(vm, k, g) :: j == k)
  }

  /** A suspended generator has a register and handlers within its window. */
  predicate Resumable(s: Gen) {
    s.Suspended? ==>
      && |s.regs| >= 1
      && (forall i :: 0 <= i < |s.traps| ==> 0 < s.traps[i].top <= |s.regs| && s.traps[i].target < s.traps[i].top)
      && (forall i, j :: 0 <= i < j < |s.traps| ==> s.traps[i].top <= s.traps[j].top)
  }

  ghost predicate Inv(vm: VM) {
    && vm.frames != []
    && vm.frames[0].traps == [] && vm.frames[0].gen == None
    && (Alive(vm) ==> vm.frames[1].root)
    && (forall k :: 0 <= k < |vm.frames| ==> Sized(vm.frames[k], |vm.stack|))
    && (forall k :: 1 <= k < |vm.frames| ==> Nested(vm.frames[k - 1], vm.frames[k]))
    && OneFrameEach(vm)
    && (forall g :: 0 <= g < |vm.gens| ==> Resumable(vm.gens[g]))
  }

  /** Dropping the innermost frame keeps the invariant when its generator stops running. */
  lemma LeaveKeepsInv(vm: VM, left: VM)
    requires Inv(vm) && Alive(vm)
    requires left.frames == vm.frames[..|vm.frames| - 1] && |left.stack| == |vm.stack| && |left.gens| == |vm.gens|
    requires forall g :: 0 <= g < |vm.gens| && Last(vm).gen != Some(g) ==> left.gens[g] == vm.gens[g]
    requires forall g :: Names(vm, |vm.frames| - 1, g) ==> !left.gens[g].Running? && Resumable(left.gens[g])
    ensures Inv(left)
  {
    var n := |vm.frames| - 1;
    assert forall k, g :: Names(left, k, g) <==> k < n && Names(vm, k, g);
    forall g | 0 <= g < |left.gens| && left.gens[g].Running? ensures exists k :: Names(left, k, g) {
      var k :| Names(vm, k, g);
      assert Names(left, k, g);
    }
    forall k, g | Names(left, k, g) ensures left.gens[g].Running? {
      assert Names(vm, k, g);
      assert Last(vm).gen == Some(g) ==> Names(vm, n, g);
    }
  }

  /** Pushing a frame keeps the invariant when the generator it names was not running and now is. */
  lemma EnterKeepsInv(vm: VM, f: Frame, inner: VM)
    requires Inv(vm)
    requires inner.frames == vm.frames + [f] && |inner.stack| >= |vm.stack| && |inner.gens| == |vm.gens|
    requires Sized(f, |inner.stack|) && Nested(Last(vm), f) && (!Alive(vm) ==> f.root)
    requires forall g :: 0 <= g < |vm.gens| && f.gen != Some(g) ==> inner.gens[g] == vm.gens[g]
    requires f.gen.Some? ==> f.gen.value < |vm.gens| && !vm.gens[f.gen.value].Running? && inner.gens[f.gen.value] == Running
    ensures Inv(inner)
  {
    var n := |vm.frames|;
    assert forall k, g :: Names(inner, k, g) <==> Names(vm, k, g) || (k == n && f.gen == Some(g));
    forall g | 0 <= g < |inner.gens| && inner.gens[g].Running? ensures exists k :: Names(inner, k, g) {
      if f.gen == Some(g) {
        assert Names(inner, n, g);
      } else {
        var k :| Names(vm, k, g);
        assert Names(inner, k, g);
      }
    }
  }

  /** Changing the innermost frame in place keeps the invariant. */
  lemma EditKeepsInv(vm: VM, f: Frame, after: VM)
    requires Inv(vm)
    requires after.frames == vm.frames[..|vm.frames| - 1] + [f] && |after.stack| >= |vm.stack| && after.gens == vm.gens
    requires Sized(f, |after.stack|) && f.base == Last(vm).base && f.gen == Last(vm).gen && f.target == Last(vm).target
    requires f.root == Last(vm).root || f.root
    requires |vm.frames| == 1 ==> f.traps == []
    ensures Inv(after)
  {
    assert forall k, g :: Names(after, k, g) <==> Names(vm, k, g);
  }

  lemma UnwindKeepsInv(vm: VM, err: Value, limit: int)
    requires Inv(vm)
    ensures Inv(Unwind(vm, err, limit))
    decreases |vm.frames|
  {
    if Alive(vm) {
      if Last(vm).traps != [] {
        EditKeepsInv(vm, Last(Land(vm, err, limit)), Land(vm, err, limit));
      } else {
        var left := Leave(Killed(vm, Last(vm).gen));
        LeaveKeepsInv(vm, left);
        if Last(vm).root { LeaveKeepsInv(vm, left.(event := Uncaught(err))); } else { UnwindKeepsInv(left, err, limit); }
      }
    }
  }

  lemma SetKeepsInv(vm: VM, stack: seq<Value>, event: Event)
    requires Inv(vm) && |stack| == |vm.stack|
    ensures Inv(vm.(stack := stack, event := event))
  {
    assert forall k, g :: Names(vm.(stack := stack, event := event), k, g) <==> Names(vm, k, g);
  }

  lemma ResumeKeepsInv(vm: VM, g: nat, target: int)
    requires Inv(vm) && Alive(vm) && g < |vm.gens| && vm.gens[g].Suspended? && Register(Last(vm), target)
    ensures Inv(Resumed(vm, g, target))
  {
    var r := Resumed(vm, g, target);
    var f := Last(r);
    assert Resumable(vm.gens[g]);
    assert Sized(f, |r.stack|);
    EnterKeepsInv(vm, f, r);
  }

  lemma ReturnKeepsInv(vm: VM, mid: VM, v: Value)
    requires Inv(vm) && Alive(vm)
    requires |mid.frames| == |vm.frames| && mid.frames[..|vm.frames| - 1] == vm.frames[..|vm.frames| - 1]
    requires Last(mid).target == Last(vm).target && Last(mid).root == Last(vm).root
    requires |mid.stack| == |vm.stack| && |mid.gens| == |vm.gens|
    requires forall g :: 0 <= g < |vm.gens| && Last(vm).gen != Some(g) ==> mid.gens[g] == vm.gens[g]
    requires forall g :: Names(vm, |vm.frames| - 1, g) ==> !mid.gens[g].Running? && Resumable(mid.gens[g])
    ensures Inv(Return(mid, v))
  {
    LeaveKeepsInv(vm, Return(mid, v));
  }

  lemma MakeKeepsInv(vm: VM, fn: Proto, at: int, target: int)
    requires Inv(vm) && Alive(vm) && fn.size >= 1 && 1 <= at && Last(vm).base + at <= Last(vm).top
    ensures Inv(MakeGenerator(vm, fn, at, target))
  {
    var r := MakeGenerator(vm, fn, at, target);
    assert r.frames == vm.frames;
    assert forall k, g :: Names(r, k, g) <==> Names(vm, k, g);
    assert forall g :: 0 <= g < |vm.gens| ==> r.gens[g] == vm.gens[g];
  }

  lemma SuspendShape(vm: VM, g: nat, live: int)
    requires Inv(vm) && g < |vm.gens|
    ensures var s := Suspend(vm, g, live);
            var f := Last(vm);
            && s.frames == vm.frames[..|vm.frames| - 1] + [f.(traps := [])]
            && |s.stack| == |vm.stack|
            && |s.gens| == |vm.gens|
            && (forall h :: 0 <= h < |vm.gens| && h != g ==> s.gens[h] == vm.gens[h])
            && s.gens[g] == Suspended(Saved(vm.stack, f.base, f.top - f.base, live), f.fn, f.ip, f.ncalls, f.root, Shift(f.traps, -f.base))
            && Resumable(s.gens[g])
  {
    assert Sized(Last(vm), |vm.stack|);
  }

  /** The generator an innermost frame names is running. */
  lemma LastIsRunning(vm: VM)
    requires Inv(vm)
    ensures vm.frames != [] && Sized(Last(vm), |vm.stack|)
    ensures |vm.frames| == 1 ==> Last(vm).traps == []
    ensures Last(vm).gen.Some? ==> Last(vm).gen.value < |vm.gens| && vm.gens[Last(vm).gen.value].Running?
  {
    assert Last(vm).gen.Some? ==> Names(vm, |vm.frames| - 1, Last(vm).gen.value);
  }

  lemma YieldKeepsInv(vm: VM, has: bool, reg: int, live: int)
    requires Inv(vm) && Alive(vm)
    ensures Inv(Yielded(vm, has, reg, live))
  {
    hide Inv, Suspend, Resumable, Unwind, Return;
    LastIsRunning(vm);
    var f := Last(vm);
    if f.gen.None? { UnwindKeepsInv(vm, Message, f.top); } else {
      var g := f.gen.value;
      SuspendShape(vm, g, live);
      var mid := Suspend(vm, g, live);
      var v := At(vm.stack, f.base + reg);
      ReturnKeepsInv(vm, mid.(stack := Put(mid.stack, f.base + reg, v)), if has then v else Null);
    }
  }

  lemma FinishKeepsInv(vm: VM, result: Option<int>)
    requires Inv(vm) && Alive(vm)
    ensures Inv(Finished(vm, result))
  {
    hide Inv, Return;
    LastIsRunning(vm);
    var f := Last(vm);
    ReturnKeepsInv(vm, Killed(vm, f.gen), if result.Some? then At(vm.stack, f.base + result.value) else Null);
  }

  lemma EditStepKeepsInv(vm: VM, op: Op)
    requires Inv(vm) && Legal(vm, op)
    requires op.Set? || op.Jump? || op.TailCall? || op.PushTrap? || op.PopTrap?
    ensures Inv(Act(vm, op))
  {
    hide Inv;
    LastIsRunning(vm);
    var r := Act(vm, op);
    assert Sized(Last(r), |r.stack|);
    EditKeepsInv(vm, Last(r), r);
  }

  lemma CallKeepsInv(vm: VM, op: Op)
    requires Inv(vm) && Legal(vm, op)
    requires op.Call? || op.HostCall?
    ensures Inv(Act(vm, op))
  {
    hide Inv;
    LastIsRunning(vm);
    var r := Act(vm, op);
    if op.Call? && op.fn.generator { MakeKeepsInv(vm, op.fn, op.at, op.target); } else { EnterKeepsInv(vm, Last(r), r); }
  }

  lemma WakeKeepsInv(vm: VM, reg: int, target: int)
    requires Inv(vm) && Alive(vm) && Register(Last(vm), target)
    ensures Inv(Woken(vm, reg, target))
  {
    hide Inv, Resumed, Unwind;
    LastIsRunning(vm);
    var v := At(vm.stack, Last(vm).base + reg);
    if v.Generator? && v.id < |vm.gens| && vm.gens[v.id].Suspended? {
      ResumeKeepsInv(vm, v.id, target);
    } else {
      UnwindKeepsInv(vm, Message, Last(vm).top);
    }
  }

  lemma HostWakeKeepsInv(vm: VM, g: nat, reg: int)
    requires Inv(vm) && g < |vm.gens| && Register(Last(vm), reg)
    ensures Inv(WokenByHost(vm, g, reg))
  {
    LastIsRunning(vm);
    if vm.gens[g].Suspended? {
      var r := WokenByHost(vm, g, reg);
      assert Resumable(vm.gens[g]);
      assert Sized(Last(r), |r.stack|);
      hide Inv;
      EnterKeepsInv(vm, Last(r), r);
    } else {
      SetKeepsInv(vm, vm.stack, Uncaught(Message));
    }
  }

  /** Every step keeps the invariant: frames nest, each running generator has
      exactly one frame, and no access leaves the stack. */
  lemma StepKeepsInv(vm: VM, op: Op)
    requires Inv(vm) && Legal(vm, op)
    ensures Inv(Step(vm, op))
  {
    var s := vm.(event := Silent);
    SetKeepsInv(vm, vm.stack, Silent);
    assert Legal(s, op);
    hide Inv, Unwind, Woken, WokenByHost, Yielded, Finished;
    match op
    case HostResume(g, reg) => HostWakeKeepsInv(s, g, reg);
    case Resume(reg, target) => WakeKeepsInv(s, reg, target);
    case Call(_, _, _) => CallKeepsInv(s, op);
    case HostCall(_, _) => CallKeepsInv(s, op);
    case Ret(result) => FinishKeepsInv(s, result);
    case Raise(error) => UnwindKeepsInv(s, error, Last(s).top);
    case Yield(has, reg, live) => YieldKeepsInv(s, has, reg, live);
    case _ => EditStepKeepsInv(s, op);
  }

  // --------------------------------------------------------------------- runs

  /** Every instruction of the run is one the compiler could have emitted there. */
  ghost predicate LegalRun(vm: VM, ops: seq<Op>)
    requires Inv(vm)
    decreases |ops|
  {
    ops == [] || (Legal(vm, ops[0]) && (StepKeepsInv(vm, ops[0]); LegalRun(Step(vm, ops[0]), ops[1..])))
  }

  ghost function Run(vm: VM, ops: seq<Op>): (r: VM)
    requires Inv(vm) && LegalRun(vm, ops)
    ensures Inv(r)
    decreases |ops|
  {
    if ops == [] then vm else
      StepKeepsInv(vm, ops[0]);
      Run(Step(vm, ops[0]), ops[1..])
  }

  // --------------------------------------------------------------- generators

  /** The step resumes generator `g`. */
  predicate Wakes(vm: VM, op: Op, g: nat)
    requires vm.frames != []
  {
    (op.HostResume? && op.g == g) || (op.Resume? && At(vm.stack, Last(vm).base + op.reg) == Generator(g))
  }

  lemma UnwindKeepsGen(vm: VM, err: Value, limit: int, g: nat)
    requires Inv(vm) && g < |vm.gens| && !vm.gens[g].Running?
    ensures g < |Unwind(vm, err, limit).gens| && Unwind(vm, err, limit).gens[g] == vm.gens[g]
    decreases |vm.frames|
  {
    if Alive(vm) && Last(vm).traps == [] {
      var left := Leave(Killed(vm, Last(vm).gen));
      LeaveKeepsInv(vm, left);
      if Last(vm).gen.Some? { assert Names(vm, |vm.frames| - 1, Last(vm).gen.value); }
      if !Last(vm).root { UnwindKeepsGen(left, err, limit, g); }
    }
  }

  predicate Keeps(vm: VM, after: VM, g: nat) {
    g < |vm.gens| && g < |after.gens| && after.gens[g] == vm.gens[g]
  }

  lemma FinishKeepsGen(vm: VM, op: Op, g: nat)
    requires vm.frames != [] && Legal(vm, op) && g < |vm.gens| && Last(vm).gen != Some(g)
    requires op.Ret? || op.Yield?
    requires Keeps(vm, Throw(vm, Message), g)
    ensures Keeps(vm, Act(vm, op), g)
  {
    hide Throw, Cleared, Put, Saved, Shift;
  }

  lemma ActKeepsGen(vm: VM, op: Op, g: nat)
    requires vm.frames != [] && Legal(vm, op) && g < |vm.gens|
    requires Last(vm).gen != Some(g)
    requires vm.gens[g].Dead? || (vm.gens[g].Suspended? && !Wakes(vm, op, g))
    requires forall err :: Keeps(vm, Throw(vm, err), g)
    ensures Keeps(vm, Act(vm, op), g)
  {
    hide Throw, Written, Cleared, Grown, Put, Saved, Shift, Yielded, Finished;
    assert op.Raise? ==> Keeps(vm, Throw(vm, op.error), g);
    assert Keeps(vm, Throw(vm, Message), g);
    if op.Ret? || op.Yield? { FinishKeepsGen(vm, op, g); }
  }

  /** A generator that is not running changes only when it is resumed, and a dead one never. */
  lemma StepKeepsGen(vm: VM, op: Op, g: nat)
    requires Inv(vm) && Legal(vm, op) && g < |vm.gens|
    requires vm.gens[g].Dead? || (vm.gens[g].Suspended? && !Wakes(vm, op, g))
    ensures Keeps(vm, Step(vm, op), g)
  {
    hide Act, Unwind;
    var s := vm.(event := Silent);
    SetKeepsInv(vm, vm.stack, Silent);
    assert Last(vm).gen == Some(g) ==> Names(vm, |vm.frames| - 1, g);
    forall err ensures Keeps(s, Throw(s, err), g) { UnwindKeepsGen(s, err, Last(s).top, g); }
    ActKeepsGen(s, op, g);
  }

  /** A dead generator stays dead over every run. */
  lemma {:induction false} DeadForever(vm: VM, ops: seq<Op>, g: nat)
    requires Inv(vm) && LegalRun(vm, ops) && g < |vm.gens| && vm.gens[g].Dead?
    ensures Keeps(vm, Run(vm, ops), g)
    decreases |ops|
  {
    hide Act;
    if ops != [] {
      StepKeepsInv(vm, ops[0]);
      StepKeepsGen(vm, ops[0], g);
      DeadForever(Step(vm, ops[0]), ops[1..], g);
    }
  }

  /** No step of the run resumes generator `g`. */
  ghost predicate NeverWakes(vm: VM, ops: seq<Op>, g: nat)
    requires Inv(vm) && LegalRun(vm, ops)
    decreases |ops|
  {
    ops == [] || (!Wakes(vm, ops[0], g) && (StepKeepsInv(vm, ops[0]); NeverWakes(Step(vm, ops[0]), ops[1..], g)))
  }

  /** A suspended generator keeps everything it saved until it is resumed. */
  lemma {:induction false} SleepsUndisturbed(vm: VM, ops: seq<Op>, g: nat)
    requires Inv(vm) && LegalRun(vm, ops) && NeverWakes(vm, ops, g) && g < |vm.gens| && vm.gens[g].Suspended?
    ensures Keeps(vm, Run(vm, ops), g)
    decreases |ops|
  {
    hide Act;
    if ops != [] {
      StepKeepsInv(vm, ops[0]);
      StepKeepsGen(vm, ops[0], g);
      SleepsUndisturbed(Step(vm, ops[0]), ops[1..], g);
    }
  }

  /** What a yielding frame `f` over `stack` becomes when it is resumed at `base`. */
  ghost predicate ResumedFrom(f: Frame, was: seq<Value>, live: int, f': Frame, now: seq<Value>, base: int) {
    && f'.base == base && f'.top - f'.base == f.top - f.base
    && f'.fn == f.fn && f'.ip == f.ip && f'.ncalls == f.ncalls && f'.gen == f.gen && f'.root == f.root
    && |f'.traps| == |f.traps|
    && (forall i :: 0 <= i < |f.traps| ==> f'.traps[i] == f.traps[i].(top := f.traps[i].top + (base - f.base)))
    && (forall r :: 0 <= r < live ==> Reg(now, base, r) == Reg(was, f.base, r))
  }

  lemma YieldSuspends(vm: VM, y: Op)
    requires Inv(vm) && Legal(vm, y) && y.Yield? && Last(vm).gen.Some?
    ensures var s := Step(vm, y);
            var f := Last(vm);
            && f.gen.value < |s.gens|
            && s.gens[f.gen.value] == Suspended(Saved(vm.stack, f.base, f.top - f.base, y.live), f.fn, f.ip, f.ncalls,
                f.root, Shift(f.traps, -f.base))
  {
    hide Inv, Suspend;
    var s := vm.(event := Silent);
    SetKeepsInv(vm, vm.stack, Silent);
    LastIsRunning(vm);
    SuspendShape(s, Last(vm).gen.value, y.live);
  }

  /** Yield, then any run that does not wake the generator, then a resume: the
      generator's frame is back, moved to the resumer's top.  Its live registers,
      its position and its handlers in their order are what they were, each
      handler shifted by exactly the difference of the bases; the frames
      below are the resumer's. */
  lemma YieldThenResume(vm: VM, y: Op, ops: seq<Op>, r: Op)
    requires Inv(vm) && Legal(vm, y) && y.Yield? && Last(vm).gen.Some?
    requires var s := Step(vm, y); Inv(s) && LegalRun(s, ops) && NeverWakes(s, ops, Last(vm).gen.value)
    requires var t := Run(Step(vm, y), ops); Legal(t, r) && r.Resume? && Wakes(t, r, Last(vm).gen.value)
    ensures var t := Run(Step(vm, y), ops);
            var u := Step(t, r);
            && |u.frames| == |t.frames| + 1
            && u.frames[..|t.frames|] == t.frames
            && ResumedFrom(Last(vm), vm.stack, y.live, Last(u), u.stack, Last(t).top)
            && Last(u).target == r.target && Last(vm).gen.value < |t.gens| && u.gens == t.gens[Last(vm).gen.value := Running]
  {
    hide Act, ResumedFrom;
    var s := Step(vm, y);
    var g := Last(vm).gen.value;
    YieldSuspends(vm, y);
    SleepsUndisturbed(s, ops, g);
    var t := Run(s, ops);
    LastIsRunning(vm);
    ResumeRestores(Last(vm), vm.stack, y.live, t, r, g);
  }

  lemma ResumeRestores(f: Frame, was: seq<Value>, live: int, t: VM, r: Op, g: nat)
    requires Inv(t) && Legal(t, r) && r.Resume? && Wakes(t, r, g) && g < |t.gens|
    requires f.base < f.top && live <= f.top - f.base && f.gen == Some(g)
    requires t.gens[g] == Suspended(Saved(was, f.base, f.top - f.base, live), f.fn, f.ip, f.ncalls, f.root, Shift(f.traps, -f.base))
    ensures var u := Step(t, r);
            && |u.frames| == |t.frames| + 1
            && u.frames[..|t.frames|] == t.frames
            && ResumedFrom(f, was, live, Last(u), u.stack, Last(t).top)
            && Last(u).target == r.target && u.gens == t.gens[g := Running]
  {
    hide Inv;
    LastIsRunning(t);
    var s := t.(event := Silent);
    var base := Last(t).top;
    var regs := t.gens[g].regs;
    var u := Resumed(s, g, r.target);
    assert Step(t, r) == u;
    assert |u.stack| >= base + |regs|;
    var f' := Last(u);
    forall i | 0 <= i < |f.traps| ensures f'.traps[i] == f.traps[i].(top := f.traps[i].top + (base - f.base)) {
      assert f'.traps[i] == t.gens[g].traps[i].(top := t.gens[g].traps[i].top + base);
    }
    forall k | 0 <= k < live ensures Reg(u.stack, base, k) == Reg(was, f.base, k) {
      assert regs[k] == At(was, f.base + k);
      assert u.stack[base + k] == regs[k];
    }
  }

  // -------------------------------------------------------------------- throws

  /** Frame `k` is the innermost one with a handler, and no native code runs above it. */
  predicate Catches(vm: VM, k: int) {
    && 1 <= k < |vm.frames| && vm.frames[k].traps != []
    && forall j :: k < j < |vm.frames| ==> vm.frames[j].traps == [] && !vm.frames[j].root
  }

  /** Frame `k` started the innermost native run, and nothing in that run has a handler. */
  predicate Escapes(vm: VM, k: int) {
    && 1 <= k < |vm.frames| && vm.frames[k].root
    && (forall j :: k <= j < |vm.frames| ==> vm.frames[j].traps == [])
    && (forall j :: k < j < |vm.frames| ==> !vm.frames[j].root)
  }

  /** The generators named by frames from `k` up are dead and the others unchanged. */
  ghost predicate KilledFrom(vm: VM, k: int, after: VM) {
    && |after.gens| == |vm.gens|
    && forall g :: 0 <= g < |vm.gens| ==>
        if exists j :: k <= j && Names(vm, j, g) then after.gens[g].Dead? else after.gens[g] == vm.gens[g]
  }

  lemma KilledMore(vm: VM, left: VM, k: int, after: VM)
    requires Inv(vm) && Alive(vm) && k < |vm.frames|
    requires left == Leave(Killed(vm, Last(vm).gen)) && KilledFrom(left, k, after)
    ensures KilledFrom(vm, k, after)
  {
    var n := |vm.frames| - 1;
    assert forall j, g :: Names(vm, j, g) <==> Names(left, j, g) || (j == n && Last(vm).gen == Some(g));
    forall g | 0 <= g < |vm.gens|
      ensures if exists j :: k <= j && Names(vm, j, g) then after.gens[g].Dead? else after.gens[g] == vm.gens[g]
    {
      if Last(vm).gen == Some(g) {
        assert Names(vm, n, g);
        assert left.gens[g].Dead?;
      }
    }
  }

  lemma Inside(vm: VM, k: int)
    requires Inv(vm) && 0 <= k < |vm.frames|
    ensures Sized(vm.frames[k], |vm.stack|)
    ensures k >= 1 ==> Nested(vm.frames[k - 1], vm.frames[k])
  {
  }

  lemma {:induction false} BasesAscend(vm: VM, j: int, k: int)
    requires Inv(vm) && 0 <= j <= k < |vm.frames|
    ensures vm.frames[j].base <= vm.frames[k].base
    ensures j < k ==> vm.frames[j].base < vm.frames[k].base
    decreases k - j
  {
    if j < k { BasesAscend(vm, j, k - 1); }
  }

  lemma LeftInv(vm: VM)
    requires Inv(vm) && Alive(vm)
    ensures Inv(Leave(Killed(vm, Last(vm).gen)))
  {
    LastIsRunning(vm);
    LeaveKeepsInv(vm, Leave(Killed(vm, Last(vm).gen)));
  }

  /** Below this slot frame `k` keeps its registers whatever runs above it. */
  function Safe(vm: VM, k: int): int
    requires 0 <= k < |vm.frames| && vm.frames[k].traps != []
  {
    var t := vm.frames[k].traps[|vm.frames[k].traps| - 1];
    if k + 1 < |vm.frames| && vm.frames[k + 1].base < t.top then vm.frames[k + 1].base else t.top
  }

  /** Frame `k` goes on at its last handler with its own base: the error is in
      the handler's register, the slots from the handler's top up are cleared
      and the frames above are gone. */
  ghost predicate Landed(vm: VM, err: Value, limit: int, k: int, r: VM)
    requires 0 <= k < |vm.frames| && vm.frames[k].traps != []
  {
    var f := vm.frames[k];
    var t := f.traps[|f.traps| - 1];
    && r.frames == vm.frames[..k] + [f.(ip := t.ip, top := t.top, traps := f.traps[..|f.traps| - 1])]
    && r.event == vm.event
    && At(r.stack, f.base + t.target) == err
    && (forall i :: t.top <= i <= limit ==> At(r.stack, i) == Null)
    && (forall i :: 0 <= i < Safe(vm, k) && i != f.base + t.target ==> At(r.stack, i) == At(vm.stack, i))
  }

  lemma LandsHere(vm: VM, err: Value, limit: int)
    requires Inv(vm) && Alive(vm) && Last(vm).traps != []
    ensures Landed(vm, err, limit, |vm.frames| - 1, Land(vm, err, limit))
  {
    hide Inv;
    Inside(vm, |vm.frames| - 1);
  }

  lemma SafeBelow(vm: VM, k: int)
    requires Inv(vm) && 0 <= k < |vm.frames| - 1 && vm.frames[k].traps != []
    ensures Safe(vm, k) <= Safe(vm.(frames := vm.frames[..|vm.frames| - 1]), k)
    ensures Safe(vm, k) <= vm.frames[|vm.frames| - 2].top
  {
    hide Inv;
    var n := |vm.frames| - 1;
    Inside(vm, k);
    Inside(vm, n - 1);
    BasesAscend(vm, k + 1, n);
    if k + 1 < n { BasesAscend(vm, k + 1, n - 1); }
  }

  lemma LandedBelow(vm: VM, left: VM, err: Value, limit: int, k: int, r: VM)
    requires Inv(vm) && 0 <= k < |vm.frames| - 1 && vm.frames[k].traps != []
    requires left == Leave(Killed(vm, Last(vm).gen)) && Landed(left, err, limit, k, r)
    ensures Landed(vm, err, limit, k, r)
  {
    hide Inv, Safe;
    SafeBelow(vm, k);
    var n := |vm.frames| - 1;
    var t := vm.frames[k].traps[|vm.frames[k].traps| - 1];
    assert Safe(left, k) == Safe(vm.(frames := vm.frames[..n]), k) by { SafeFrames(left, vm.(frames := vm.frames[..n]), k); }
    assert left.stack == Cleared(vm.stack, vm.frames[n - 1].top, Last(vm).top);
    forall i | 0 <= i < Safe(vm, k) && i != vm.frames[k].base + t.target ensures At(r.stack, i) == At(vm.stack, i) {
      assert At(r.stack, i) == At(left.stack, i);
    }
    assert left.frames[..k] == vm.frames[..k];
  }

  lemma SafeFrames(a: VM, b: VM, k: int)
    requires a.frames == b.frames && 0 <= k < |a.frames| && a.frames[k].traps != []
    ensures Safe(a, k) == Safe(b, k)
  {
  }

  /** A throw lands in the innermost frame with a handler; the generators of
      the frames above die and no other generator changes. */
  lemma {:induction false} ThrowLands(vm: VM, err: Value, limit: int, k: int)
    requires Inv(vm) && Catches(vm, k)
    ensures Landed(vm, err, limit, k, Unwind(vm, err, limit))
    ensures KilledFrom(vm, k + 1, Unwind(vm, err, limit))
    decreases |vm.frames|
  {
    hide Inv, Landed, KilledFrom;
    if k == |vm.frames| - 1 {
      LandsHere(vm, err, limit);
      KilledNone(vm, k + 1, Unwind(vm, err, limit));
    } else {
      var left := Leave(Killed(vm, Last(vm).gen));
      LeftInv(vm);
      ThrowLands(left, err, limit, k);
      LandedBelow(vm, left, err, limit, k, Unwind(left, err, limit));
      KilledMore(vm, left, k + 1, Unwind(left, err, limit));
    }
  }

  /** A throw that nothing in the innermost native run catches ends that run. */
  lemma {:induction false} ThrowEscapes(vm: VM, err: Value, limit: int, k: int)
    requires Inv(vm) && Escapes(vm, k)
    ensures var r := Unwind(vm, err, limit);
            r.frames == vm.frames[..k] && r.event == Uncaught(err) && KilledFrom(vm, k, r)
    decreases |vm.frames|
  {
    hide Inv, KilledFrom;
    var left := Leave(Killed(vm, Last(vm).gen));
    LeftInv(vm);
    if k == |vm.frames| - 1 {
      var r := left.(event := Uncaught(err));
      assert KilledFrom(left, k, r) by { KilledNone(left, k, r); }
      KilledMore(vm, left, k, r);
    } else {
      ThrowEscapes(left, err, limit, k);
      KilledMore(vm, left, k, Unwind(left, err, limit));
    }
  }

  lemma {:induction false} CaughtOrEscapes(vm: VM, n: int) returns (k: int)
    requires Alive(vm) && vm.frames[1].root && 1 <= n < |vm.frames|
    requires forall j :: n < j < |vm.frames| ==> vm.frames[j].traps == [] && !vm.frames[j].root
    ensures Catches(vm, k) || Escapes(vm, k)
  {
    if vm.frames[n].traps != [] || vm.frames[n].root { k := n; } else { k := CaughtOrEscapes(vm, n - 1); }
  }

  /** A throw is caught exactly when some frame of the innermost native run has a handler. */
  lemma CaughtExactly(vm: VM, err: Value, limit: int)
    requires Inv(vm) && Alive(vm) && vm.event == Silent
    ensures Unwind(vm, err, limit).event == Silent <==> exists k :: Catches(vm, k)
    ensures Unwind(vm, err, limit).event == Uncaught(err) <==> exists k :: Escapes(vm, k)
  {
    var k := CaughtOrEscapes(vm, |vm.frames| - 1);
    if Catches(vm, k) {
      ThrowLands(vm, err, limit, k);
      assert forall j :: !Escapes(vm, j);
    } else {
      ThrowEscapes(vm, err, limit, k);
      assert forall j :: !Catches(vm, j);
    }
  }

  lemma KilledNone(vm: VM, k: int, after: VM)
    requires |vm.frames| <= k && after.gens == vm.gens
    ensures KilledFrom(vm, k, after)
  {
    assert forall j, g :: Names(vm, j, g) ==> j < k;
  }

  // --------------------------------------------------------- calls and returns

  /** Nothing under frame `d` has changed: the frames below it, where it sits and
      returns to, and every slot up to the last one under its base. */
  predicate Below(vm: VM, after: VM, d: int) {
    && 0 <= d < |vm.frames| && d < |after.frames|
    && after.frames[..d] == vm.frames[..d]
    && after.frames[d].base == vm.frames[d].base
    && after.frames[d].target == vm.frames[d].target
    && after.frames[d].root == vm.frames[d].root
    && |after.stack| >= |vm.stack|
    && forall i :: 0 <= i < vm.frames[d].base - 1 ==> At(after.stack, i) == At(vm.stack, i)
  }

  lemma BelowTrans(a: VM, b: VM, c: VM, d: int)
    requires Below(a, b, d) && Below(b, c, d)
    ensures Below(a, c, d)
  {
    forall i | 0 <= i < a.frames[d].base - 1 ensures At(c.stack, i) == At(a.stack, i) {
      assert At(c.stack, i) == At(b.stack, i);
    }
  }

  lemma LeaveLocal(vm: VM, g: Option<nat>, d: int)
    requires Inv(vm) && Alive(vm) && 0 <= d < |vm.frames| - 1
    ensures Below(vm, Leave(Killed(vm, g)), d)
  {
    hide Inv;
    BasesAscend(vm, d, |vm.frames| - 2);
    Inside(vm, |vm.frames| - 2);
  }

  lemma {:induction false} UnwindLocal(vm: VM, err: Value, limit: int, d: int)
    requires Inv(vm) && 0 <= d < |vm.frames| && d < |Unwind(vm, err, limit).frames|
    ensures Below(vm, Unwind(vm, err, limit), d)
    decreases |vm.frames|
  {
    hide Inv, Land, Below;
    if !Alive(vm) {
      BelowSame(vm, Unwind(vm, err, limit), d);
    } else if Last(vm).traps != [] {
      LandLocal(vm, err, limit, d);
    } else {
      var left := Leave(Killed(vm, Last(vm).gen));
      LeftInv(vm);
      if !Last(vm).root { UnwindShorter(left, err, limit); }
      LeaveLocal(vm, Last(vm).gen, d);
      if Last(vm).root {
        BelowSame(left, left.(event := Uncaught(err)), d);
        BelowTrans(vm, left, left.(event := Uncaught(err)), d);
      } else {
        UnwindLocal(left, err, limit, d);
        BelowTrans(vm, left, Unwind(left, err, limit), d);
      }
    }
  }

  lemma BelowSame(vm: VM, after: VM, d: int)
    requires after.frames == vm.frames && after.stack == vm.stack && 0 <= d < |vm.frames|
    ensures Below(vm, after, d)
  {
  }

  lemma {:induction false} UnwindShorter(vm: VM, err: Value, limit: int)
    requires Inv(vm)
    ensures |Unwind(vm, err, limit).frames| <= |vm.frames|
    decreases |vm.frames|
  {
    if Alive(vm) && Last(vm).traps == [] {
      var left := Leave(Killed(vm, Last(vm).gen));
      LeftInv(vm);
      if !Last(vm).root { UnwindShorter(left, err, limit); }
    }
  }

  /** Slots under `limit` are the same. */
  predicate SameUnder(a: seq<Value>, b: seq<Value>, limit: int) {
    |a| <= |b| && forall i :: 0 <= i < limit ==> At(b, i) == At(a, i)
  }

  lemma EditLocal(vm: VM, after: VM, d: int)
    requires Inv(vm) && 0 <= d < |vm.frames| == |after.frames|
    requires after.frames[..|vm.frames| - 1] == vm.frames[..|vm.frames| - 1] && SameUnder(vm.stack, after.stack, Last(vm).base)
    requires Last(after).base == Last(vm).base && Last(after).target == Last(vm).target && Last(after).root == Last(vm).root
    ensures Below(vm, after, d)
  {
    hide Inv;
    BasesAscend(vm, d, |vm.frames| - 1);
    var n := |vm.frames| - 1;
    assert after.frames[..d] == after.frames[..n][..d] && vm.frames[..d] == vm.frames[..n][..d];
    assert d < n ==> after.frames[d] == after.frames[..n][d];
  }

  lemma PushLocal(vm: VM, after: VM, d: int)
    requires Inv(vm) && 0 <= d < |vm.frames| <= |after.frames|
    requires after.frames[..|vm.frames|] == vm.frames && SameUnder(vm.stack, after.stack, Last(vm).base - 1)
    ensures Below(vm, after, d)
  {
    hide Inv;
    BasesAscend(vm, d, |vm.frames| - 1);
    var n := |vm.frames|;
    assert after.frames[..d] == after.frames[..n][..d] && after.frames[d] == after.frames[..n][d];
  }

  lemma PopLocal(vm: VM, after: VM, d: int)
    requires Inv(vm) && 0 <= d < |vm.frames| - 1
    requires after.frames == vm.frames[..|vm.frames| - 1] && SameUnder(vm.stack, after.stack, Caller(vm).base)
    ensures Below(vm, after, d)
  {
    hide Inv;
    BasesAscend(vm, d, |vm.frames| - 2);
    assert after.frames[..d] == vm.frames[..d];
  }

  lemma LandLocal(vm: VM, err: Value, limit: int, d: int)
    requires Inv(vm) && Alive(vm) && Last(vm).traps != [] && 0 <= d < |vm.frames|
    ensures Below(vm, Land(vm, err, limit), d)
  {
    hide Inv, Below;
    Inside(vm, |vm.frames| - 1);
    EditLocal(vm, Land(vm, err, limit), d);
  }

  /** Returning writes nothing under the caller's base. */
  lemma ReturnUnder(vm: VM, v: Value)
    requires Alive(vm) && Nested(Caller(vm), Last(vm)) && Caller(vm).base <= Caller(vm).top
    ensures SameUnder(vm.stack, Return(vm, v).stack, Caller(vm).base)
  {
  }

  lemma FinishLocal(vm: VM, result: Option<int>, d: int)
    requires Inv(vm) && Alive(vm) && 0 <= d < |vm.frames| - 1
    ensures Below(vm, Finished(vm, result), d)
  {
    hide Inv, Below;
    Inside(vm, |vm.frames| - 2);
    Inside(vm, |vm.frames| - 1);
    ReturnUnder(Killed(vm, Last(vm).gen), if result.Some? then At(vm.stack, Last(vm).base + result.value) else Null);
    hide SameUnder;
    PopLocal(vm, Finished(vm, result), d);
  }

  lemma YieldLocal(vm: VM, has: bool, reg: int, live: int, d: int)
    requires Inv(vm) && Alive(vm) && Last(vm).gen.Some? && 0 <= reg && 0 <= d < |vm.frames| - 1
    ensures Below(vm, Yielded(vm, has, reg, live), d)
  {
    hide Inv, Below, Saved, Shift, Return, Sized;
    Inside(vm, |vm.frames| - 1);
    Windows(vm);
    var f := Last(vm);
    var v := At(vm.stack, f.base + reg);
    var s := Suspend(vm, f.gen.value, live);
    var mid := s.(stack := Put(s.stack, f.base + reg, v));
    assert SameUnder(vm.stack, mid.stack, Caller(vm).base);
    assert Caller(mid) == Caller(vm) && mid.frames[..|vm.frames| - 1] == vm.frames[..|vm.frames| - 1];
    var r := Return(mid, if has then v else Null);
    ReturnUnder(mid, if has then v else Null);
    ReturnPops(mid, if has then v else Null);
    UnderTrans(vm.stack, mid.stack, r.stack, Caller(vm).base);
    PopLocal(vm, r, d);
  }

  lemma ReturnPops(vm: VM, v: Value)
    requires Alive(vm)
    ensures Return(vm, v).frames == vm.frames[..|vm.frames| - 1]
  {
  }

  lemma UnderTrans(a: seq<Value>, b: seq<Value>, c: seq<Value>, limit: int)
    requires SameUnder(a, b, limit) && SameUnder(b, c, limit)
    ensures SameUnder(a, c, limit)
  {
    forall i | 0 <= i < limit ensures At(c, i) == At(a, i) { assert At(c, i) == At(b, i); }
  }

  lemma Windows(vm: VM)
    requires Inv(vm) && Alive(vm)
    ensures 0 <= Caller(vm).base < Caller(vm).top && 0 <= Last(vm).base < Last(vm).top
  {
    Inside(vm, |vm.frames| - 1);
    Inside(vm, |vm.frames| - 2);
  }

  lemma Window(vm: VM)
    requires Inv(vm)
    ensures 0 <= Last(vm).base < Last(vm).top
  {
    Inside(vm, |vm.frames| - 1);
  }

  lemma MakeUnder(vm: VM, fn: Proto, at: int, target: int)
    requires vm.frames != [] && 0 <= Last(vm).base < Last(vm).top && 1 <= at && -1 <= target && fn.size >= 1
    ensures MakeGenerator(vm, fn, at, target).frames == vm.frames
    ensures SameUnder(vm.stack, MakeGenerator(vm, fn, at, target).stack, Last(vm).base - 1)
  {
    hide Saved, Shift;
    var limit := Last(vm).base - 1;
    var inner := Entered(vm.(gens := vm.gens + [Running]), Fresh(fn, Last(vm).base + at, target, false));
    assert SameUnder(vm.stack, inner.stack, limit);
    var mid := Suspend(inner, |vm.gens|, fn.size);
    assert SameUnder(vm.stack, mid.stack, limit);
    assert SameUnder(vm.stack, Leave(mid).stack, limit);
  }

  lemma CallLocal(vm: VM, fn: Proto, at: int, target: int, d: int)
    requires Inv(vm) && 1 <= at && -1 <= target && 0 <= d < |vm.frames| && fn.size >= 1
    ensures Below(vm, Called(vm, fn, at, target), d)
  {
    hide Inv, Below, MakeGenerator;
    Window(vm);
    if fn.generator { MakeUnder(vm, fn, at, target); }
    PushLocal(vm, Called(vm, fn, at, target), d);
  }

  lemma WakeLocal(vm: VM, g: nat, target: int, d: int)
    requires Inv(vm) && g < |vm.gens| && vm.gens[g].Suspended? && 0 <= d < |vm.frames|
    ensures Below(vm, Resumed(vm, g, target), d)
  {
    hide Inv, Below, Shift;
    LastIsRunning(vm);
    PushLocal(vm, Resumed(vm, g, target), d);
  }

  lemma HostLocal(vm: VM, op: Op, d: int)
    requires Inv(vm) && Legal(vm, op) && (op.HostCall? || op.HostResume?) && 0 <= d < |vm.frames|
    ensures Below(vm, Act(vm, op), d)
  {
    hide Inv, Below, Shift;
    LastIsRunning(vm);
    PushLocal(vm, Act(vm, op), d);
  }

  lemma PlainLocal(vm: VM, op: Op, d: int)
    requires Inv(vm) && Legal(vm, op) && 0 <= d < |vm.frames|
    requires op.Set? || op.Jump? || op.TailCall? || op.PushTrap? || op.PopTrap?
    ensures Below(vm, Act(vm, op), d)
  {
    hide Inv, Below;
    LastIsRunning(vm);
    EditLocal(vm, Act(vm, op), d);
  }

  lemma ActLocal(vm: VM, op: Op, d: int)
    requires Inv(vm) && Legal(vm, op) && 0 <= d < |vm.frames| && d < |Act(vm, op).frames|
    ensures Below(vm, Act(vm, op), d)
  {
    hide Inv, Unwind, Resumed, Finished, Yielded, Replaced, Called, CalledByHost, WokenByHost, Trapped, Untrapped, Below;
    LastIsRunning(vm);
    var f := Last(vm);
    match op
    case Ret(result) => FinishedPops(vm, op); FinishLocal(vm, result, d);
    case Raise(err) => UnwindLocal(vm, err, f.top, d);
    case Yield(has, reg, live) =>
      if f.gen.None? {
        YieldOutside(vm, has, reg, live);
        UnwindLocal(vm, Message, f.top, d);
      } else {
        FinishedPops(vm, op);
        YieldLocal(vm, has, reg, live, d);
      }
    case Resume(reg, target) =>
      var v := At(vm.stack, f.base + reg);
      if v.Generator? && v.id < |vm.gens| && vm.gens[v.id].Suspended? {
        WakeLocal(vm, v.id, target, d);
      } else {
        UnwindLocal(vm, Message, f.top, d);
      }
    case Call(fn, at, target) => CallLocal(vm, fn, at, target, d);
    case HostCall(_, _) => HostLocal(vm, op, d);
    case HostResume(_, _) => HostLocal(vm, op, d);
    case _ => PlainLocal(vm, op, d);
  }

  lemma YieldOutside(vm: VM, has: bool, reg: int, live: int)
    requires Alive(vm) && Last(vm).gen.None?
    ensures Yielded(vm, has, reg, live) == Throw(vm, Message)
  {
  }

  lemma FinishedPops(vm: VM, op: Op)
    requires Inv(vm) && Legal(vm, op) && (op.Ret? || (op.Yield? && Last(vm).gen.Some?))
    ensures Act(vm, op).frames == vm.frames[..|vm.frames| - 1]
  {
    hide Inv;
    LastIsRunning(vm);
  }

  /** A step after which frame `d` is still there touches nothing under it. */
  lemma StepLocal(vm: VM, op: Op, d: int)
    requires Inv(vm) && Legal(vm, op) && 0 <= d < |vm.frames| && d < |Step(vm, op).frames|
    ensures Below(vm, Step(vm, op), d)
  {
    hide Act, Below, Inv;
    var s := vm.(event := Silent);
    SetKeepsInv(vm, vm.stack, Silent);
    ActLocal(s, op, d);
    BelowSame(vm, s, d);
    BelowTrans(vm, s, Act(s, op), d);
  }

  /** Frame `d` is there after every step of the run. */
  ghost predicate Deep(vm: VM, ops: seq<Op>, d: int)
    requires Inv(vm) && LegalRun(vm, ops)
    decreases |ops|
  {
    d < |vm.frames| && (ops == [] || (StepKeepsInv(vm, ops[0]); Deep(Step(vm, ops[0]), ops[1..], d)))
  }

  lemma {:induction false} RunLocal(vm: VM, ops: seq<Op>, d: int)
    requires Inv(vm) && LegalRun(vm, ops) && Deep(vm, ops, d) && 0 <= d
    ensures Below(vm, Run(vm, ops), d)
    decreases |ops|
  {
    hide Act, Below;
    if ops == [] {
      BelowSame(vm, vm, d);
    } else {
      StepKeepsInv(vm, ops[0]);
      StepLocal(vm, ops[0], d);
      RunLocal(Step(vm, ops[0]), ops[1..], d);
      BelowTrans(vm, Step(vm, ops[0]), Run(vm, ops), d);
    }
  }

  /** A return drops one frame; unless it is a root frame's, the value goes to
      the caller's target register and no other register of the caller changes. */
  lemma ReturnDelivers(vm: VM, result: Option<int>)
    requires Inv(vm) && Legal(vm, Ret(result))
    ensures var u := Step(vm, Ret(result));
            var v := if result.Some? then Reg(vm.stack, Last(vm).base, result.value) else Null;
            var f := Last(vm);
            && u.frames == vm.frames[..|vm.frames| - 1]
            && u.event == (if f.root then Returned(v) else Silent)
            && (!f.root && f.target != -1 ==> Reg(u.stack, Caller(vm).base, f.target) == v)
            && (forall i :: 0 <= i < Caller(vm).top && (f.root || f.target == -1 || i != Caller(vm).base + f.target)
                  ==> At(u.stack, i) == At(vm.stack, i))
  {
    hide Inv;
    Inside(vm, |vm.frames| - 1);
    Inside(vm, |vm.frames| - 2);
  }

  lemma CallEnters(vm: VM, fn: Proto, at: int, target: int)
    requires Inv(vm) && Legal(vm, Call(fn, at, target)) && !fn.generator
    ensures var s := Step(vm, Call(fn, at, target));
            && s.frames == vm.frames + [Fresh(fn, Last(vm).base + at, target, false)]
            && SameUnder(vm.stack, s.stack, Last(vm).top)
  {
    hide Inv;
    Inside(vm, |vm.frames| - 1);
  }

  /** A call, any run above the caller, and the callee's return: every frame is
      exactly what it was, base, top and handlers included; the target register
      holds the returned value, and no other register below the callee's
      window, but for the slot next to it, has changed. */
  lemma CallReturns(vm: VM, fn: Proto, at: int, target: int, ops: seq<Op>, result: Option<int>)
    requires Inv(vm) && Legal(vm, Call(fn, at, target)) && !fn.generator
    requires var s := Step(vm, Call(fn, at, target)); Inv(s) && LegalRun(s, ops) && Deep(s, ops, |vm.frames|)
    requires var t := Run(Step(vm, Call(fn, at, target)), ops); |t.frames| == |vm.frames| + 1 && Legal(t, Ret(result))
    ensures var t := Run(Step(vm, Call(fn, at, target)), ops);
            var u := Step(t, Ret(result));
            var v := if result.Some? then Reg(t.stack, Last(t).base, result.value) else Null;
            && u.frames == vm.frames
            && (target != -1 ==> Reg(u.stack, Last(vm).base, target) == v)
            && (forall i :: 0 <= i < Last(vm).base + at - 1 && i != Last(vm).base + target ==> At(u.stack, i) == At(vm.stack, i))
  {
    hide Inv, LegalRun, Deep, Run, Act;
    var s := Step(vm, Call(fn, at, target));
    var t := Run(s, ops);
    var u := Step(t, Ret(result));
    var d := |vm.frames|;
    CallEnters(vm, fn, at, target);
    RunLocal(s, ops, d);
    ReturnDelivers(t, result);
    assert t.frames == vm.frames + [Last(t)];
    forall i | 0 <= i < Last(vm).base + at - 1 && i != Last(vm).base + target ensures At(u.stack, i) == At(vm.stack, i) {
      assert At(t.stack, i) == At(s.stack, i) && At(s.stack, i) == At(vm.stack, i);
    }
  }

  /** Calling a generator function writes its result relative to the caller's
      base even when it is discarded: the slots under the base are kept exactly
      when the result has a register. */
  lemma GeneratorCallExactly(vm: VM, fn: Proto, at: int, target: int)
    requires Inv(vm) && Legal(vm, Call(fn, at, target)) && fn.generator
    requires At(vm.stack, Last(vm).base - 1) != Generator(|vm.gens|)
    ensures SameUnder(vm.stack, Step(vm, Call(fn, at, target)).stack, Last(vm).base) <==> target != -1
    ensures target == -1 ==> At(Step(vm, Call(fn, at, target)).stack, Last(vm).base - 1) == Generator(|vm.gens|)
  {
    hide Inv;
    Inside(vm, |vm.frames| - 1);
    if Alive(vm) { Inside(vm, |vm.frames| - 2); }
  }

  /** A function that calls a generator function as a statement and returns
      overwrites its caller's register next to the call's window. */
  lemma LocalLost(vm: VM, fn: Proto, gen: Proto, at: int, target: int)
    requires Inv(vm) && Legal(vm, Call(fn, at, target)) && !fn.generator && fn.size >= 2 && gen.generator && gen.size >= 1
    requires target != at - 1
    ensures var s := Step(vm, Call(fn, at, target));
            Inv(s) && Legal(s, Call(gen, 1, -1))
    ensures var t := Step(Step(vm, Call(fn, at, target)), Call(gen, 1, -1));
            && Inv(t) && Legal(t, Ret(None))
            && Step(t, Ret(None)).frames == vm.frames
            && Reg(Step(t, Ret(None)).stack, Last(vm).base, at - 1) == Generator(|vm.gens|)
  {
    hide Inv, Act;
    var s := Step(vm, Call(fn, at, target));
    CallEnters(vm, fn, at, target);
    StepKeepsInv(vm, Call(fn, at, target));
    CallKeepsGens(vm, fn, at, target);
    var t := Step(s, Call(gen, 1, -1));
    StepKeepsInv(s, Call(gen, 1, -1));
    GeneratorMade(s, gen, 1, -1);
    ReturnDelivers(t, None);
    Window(vm);
    assert t.frames == vm.frames + [Last(s)];
  }

  lemma CallKeepsGens(vm: VM, fn: Proto, at: int, target: int)
    requires vm.frames != [] && Legal(vm, Call(fn, at, target)) && !fn.generator
    ensures Step(vm, Call(fn, at, target)).gens == vm.gens
  {
  }

  /** Calling a generator function leaves the frames alone, adds one suspended
      generator and writes its handle. */
  lemma GeneratorMade(vm: VM, fn: Proto, at: int, target: int)
    requires Inv(vm) && Legal(vm, Call(fn, at, target)) && fn.generator
    ensures var s := Step(vm, Call(fn, at, target));
            var base := Last(vm).base;
            && s.frames == vm.frames
            && |s.gens| == |vm.gens| + 1 && s.gens[..|vm.gens|] == vm.gens
            && s.gens[|vm.gens|] == Suspended(Saved(Grown(vm.stack, base + at + fn.size), base + at, fn.size, fn.size),
                fn.entry, fn.entry, 1, false, [])
            && (base + target >= 0 ==> Reg(s.stack, base, target) == Generator(|vm.gens|))
  {
    hide Inv;
    Inside(vm, |vm.frames| - 1);
  }

  // ----------------------------------------------------------------- handlers

  /** Every handler goes back to its own frame's top. */
  predicate Tight(vm: VM) {
    && (forall k :: 0 <= k < |vm.frames| ==> TightFrame(vm.frames[k]))
    && (forall g :: 0 <= g < |vm.gens| ==> TightGen(vm.gens[g]))
  }

  predicate TightFrame(f: Frame) {
    forall i :: 0 <= i < |f.traps| ==> f.traps[i].top == f.top
  }

  predicate TightGen(s: Gen) {
    s.Suspended? ==> forall i :: 0 <= i < |s.traps| ==> s.traps[i].top == |s.regs|
  }

  /** The step tail-calls a larger function from inside a try block. */
  predicate Outgrows(vm: VM, op: Op)
    requires vm.frames != []
  {
    op.TailCall? && Last(vm).traps != [] && Last(vm).base + op.fn.size > Last(vm).top
  }

  lemma {:induction false} UnwindTight(vm: VM, err: Value, limit: int)
    requires vm.frames != [] && Tight(vm)
    ensures Tight(Unwind(vm, err, limit))
    decreases |vm.frames|
  {
    if Alive(vm) && Last(vm).traps == [] && !Last(vm).root {
      UnwindTight(Leave(Killed(vm, Last(vm).gen)), err, limit);
    }
  }

  lemma SuspendTight(vm: VM, g: nat, live: int)
    requires vm.frames != [] && Tight(vm) && Last(vm).base < Last(vm).top
    ensures Tight(Suspend(vm, g, live))
  {
  }

  lemma ReturnTight(vm: VM, v: Value)
    requires Alive(vm) && Tight(vm)
    ensures Tight(Return(vm, v))
  {
  }

  lemma ResumeTight(vm: VM, g: nat, target: int)
    requires vm.frames != [] && Tight(vm) && g < |vm.gens| && vm.gens[g].Suspended?
    ensures Tight(Resumed(vm, g, target))
    ensures TightFrame(Last(Resumed(vm, g, target)))
  {
  }

  lemma MakeTight(vm: VM, fn: Proto, at: int, target: int)
    requires vm.frames != [] && Tight(vm) && fn.size >= 1
    ensures Tight(MakeGenerator(vm, fn, at, target))
  {
    var inner := Entered(vm.(gens := vm.gens + [Running]), Fresh(fn, Last(vm).base + at, target, false));
    SuspendTight(inner, |vm.gens|, fn.size);
  }

  lemma EditTight(vm: VM, op: Op)
    requires vm.frames != [] && Legal(vm, op) && Tight(vm)
    requires op.Set? || op.Jump? || op.TailCall? || op.PushTrap? || op.PopTrap? || op.HostCall?
    ensures Tight(Act(vm, op)) <==> !Outgrows(vm, op)
  {
    var r := Act(vm, op);
    assert r.gens == vm.gens;
    assert forall k :: 0 <= k < |vm.frames| - 1 ==> r.frames[k] == vm.frames[k];
    if Outgrows(vm, op) {
      assert Last(r).traps[0].top == Last(vm).top < Last(r).top;
      assert !TightFrame(Last(r));
    } else {
      assert TightFrame(Last(vm));
      assert TightFrame(Last(r));
      assert op.HostCall? ==> r.frames[|vm.frames| - 1] == Last(vm);
    }
  }

  lemma FinishTight(vm: VM, result: Option<int>)
    requires Alive(vm) && Tight(vm)
    ensures Tight(Finished(vm, result))
  {
    hide Return;
    ReturnTight(Killed(vm, Last(vm).gen), if result.Some? then At(vm.stack, Last(vm).base + result.value) else Null);
  }

  lemma YieldTight(vm: VM, has: bool, reg: int, live: int)
    requires Alive(vm) && Tight(vm) && Last(vm).base < Last(vm).top
    ensures Tight(Yielded(vm, has, reg, live))
  {
    hide Return, Suspend, Unwind;
    var f := Last(vm);
    if f.gen.None? { UnwindTight(vm, Message, f.top); } else {
      SuspendTight(vm, f.gen.value, live);
      SuspendDepth(vm, f.gen.value, live);
      var v := At(vm.stack, f.base + reg);
      var mid := Suspend(vm, f.gen.value, live);
      ReturnTight(mid.(stack := Put(mid.stack, f.base + reg, v)), if has then v else Null);
    }
  }

  lemma WakeTight(vm: VM, reg: int, target: int)
    requires vm.frames != [] && Tight(vm)
    ensures Tight(Woken(vm, reg, target))
  {
    hide Resumed, Unwind, Tight;
    var v := At(vm.stack, Last(vm).base + reg);
    if v.Generator? && v.id < |vm.gens| && vm.gens[v.id].Suspended? {
      ResumeTight(vm, v.id, target);
    } else {
      UnwindTight(vm, Message, Last(vm).top);
    }
  }

  lemma HostWakeTight(vm: VM, g: nat, reg: int)
    requires vm.frames != [] && Tight(vm) && g < |vm.gens|
    ensures Tight(WokenByHost(vm, g, reg))
  {
    if vm.gens[g].Suspended? { ResumeTight(vm, g, reg); }
  }

  lemma CallTight(vm: VM, fn: Proto, at: int, target: int)
    requires vm.frames != [] && Tight(vm) && fn.size >= 1
    ensures Tight(Called(vm, fn, at, target))
  {
    hide MakeGenerator;
    if fn.generator { MakeTight(vm, fn, at, target); }
  }

  /** Every step keeps the handlers tight, but for one kind: the tail call of a
      larger function inside a try block, which always breaks it. */
  lemma StepTight(vm: VM, op: Op)
    requires Inv(vm) && Legal(vm, op) && Tight(vm)
    ensures Tight(Step(vm, op)) <==> !Outgrows(vm, op)
  {
    hide Inv, Unwind, Called, Woken, WokenByHost, Yielded, Finished;
    var s := vm.(event := Silent);
    LastIsRunning(vm);
    assert Tight(s);
    match op
    case Ret(result) => FinishTight(s, result);
    case Raise(err) => UnwindTight(s, err, Last(s).top);
    case Yield(has, reg, live) => YieldTight(s, has, reg, live);
    case Resume(reg, target) => WakeTight(s, reg, target);
    case HostResume(g, reg) => HostWakeTight(s, g, reg);
    case Call(fn, at, target) => CallTight(s, fn, at, target);
    case _ => EditTight(s, op);
  }

  lemma SuspendDepth(vm: VM, g: nat, live: int)
    requires vm.frames != []
    ensures |Suspend(vm, g, live).frames| == |vm.frames|
  {
  }

  /** No step of the run tail-calls a larger function inside a try block. */
  ghost predicate NeverOutgrows(vm: VM, ops: seq<Op>)
    requires Inv(vm) && LegalRun(vm, ops)
    decreases |ops|
  {
    ops == [] || (!Outgrows(vm, ops[0]) && (StepKeepsInv(vm, ops[0]); NeverOutgrows(Step(vm, ops[0]), ops[1..])))
  }

  lemma {:induction false} RunTight(vm: VM, ops: seq<Op>)
    requires Inv(vm) && LegalRun(vm, ops) && Tight(vm) && NeverOutgrows(vm, ops)
    ensures Tight(Run(vm, ops))
    decreases |ops|
  {
    hide Act, Tight, Outgrows;
    if ops != [] {
      StepKeepsInv(vm, ops[0]);
      StepTight(vm, ops[0]);
      RunTight(Step(vm, ops[0]), ops[1..]);
    }
  }

  /** After any such run, a throw that frame `k` catches goes on in that very frame, with its
      own base and its own top: only its position and its spent handler change. */
  lemma ThrowRestores(vm: VM, ops: seq<Op>, err: Value, k: int)
    requires Inv(vm) && LegalRun(vm, ops) && Tight(vm) && NeverOutgrows(vm, ops)
    requires Catches(Run(vm, ops), k)
    ensures var r := Run(vm, ops);
            var f := r.frames[k];
            Throw(r, err).frames == r.frames[..k] + [f.(ip := f.traps[|f.traps| - 1].ip, traps := f.traps[..|f.traps| - 1])]
  {
    hide Inv, LegalRun, Run, Unwind, NeverOutgrows;
    RunTight(vm, ops);
    var r := Run(vm, ops);
    LastIsRunning(r);
    ThrowLands(r, err, Last(r).top, k);
    assert TightFrame(r.frames[k]);
  }

  // --------------------------------------------------------------- tail calls

  /** A tail call takes the frame over: the arguments are its first registers, the window never
      shrinks, and caller, result register, generator, handlers and every other slot stay. */
  lemma TailCallReplaces(vm: VM, fn: Proto, from: int, nargs: nat)
    requires Inv(vm) && Legal(vm, TailCall(fn, from, nargs))
    ensures var s := Step(vm, TailCall(fn, from, nargs));
            var f, g := Last(vm), Last(s);
            && |s.frames| == |vm.frames| && s.frames[..|vm.frames| - 1] == vm.frames[..|vm.frames| - 1]
            && g == f.(top := g.top, fn := fn.entry, ip := fn.entry, ncalls := f.ncalls + 1)
            && g.top >= f.top && g.top >= f.base + fn.size && (g.top == f.top || g.top == f.base + fn.size)
            && s.gens == vm.gens
            && (forall r :: 0 <= r < nargs ==> Reg(s.stack, f.base, r) == Reg(vm.stack, f.base + from, r))
            && (forall i :: 0 <= i < |vm.stack| && !(f.base <= i < f.base + nargs) ==> At(s.stack, i) == At(vm.stack, i))
  {
    hide Inv;
    LastIsRunning(vm);
    var f := Last(vm);
    var moved := Moved(vm.stack, f.base, from, nargs);
    var s := Step(vm, TailCall(fn, from, nargs));
    assert s.stack == Grown(moved, f.base + fn.size);
    forall r | 0 <= r < nargs ensures Reg(s.stack, f.base, r) == Reg(vm.stack, f.base + from, r) {
      assert s.stack[f.base + r] == moved[f.base + r] == Slice(vm.stack, f.base + from, nargs)[r];
    }
    forall i | 0 <= i < |vm.stack| && !(f.base <= i < f.base + nargs) ensures At(s.stack, i) == At(vm.stack, i) {
      assert s.stack[i] == moved[i];
    }
  }

  // ------------------------------------------------------------ result registers

  /** The value a call returns ends up in register `r` of its caller, whatever it is. */
  ghost predicate Lands(vm: VM, r: int)
    requires Alive(vm)
  {
    forall v: Value :: Reg(Return(vm, v).stack, Caller(vm).base, r) == v
  }

  /** A call reads its result register as a signed byte.  The result lands in the register the
      compiler chose if and only if that is below 128. */
  lemma CallTargetExactly(vm: VM, fn: Proto, at: int, a0: Bytecode.Byte)
    requires Inv(vm) && !fn.generator && fn.size >= 1 && 1 <= at && a0 != 255 && Register(Last(vm), a0)
    ensures Lands(Called(vm, fn, at, Bytecode.Signed(a0)), a0) <==> a0 < 128
  {
    hide Inv;
    LastIsRunning(vm);
    var s := Called(vm, fn, at, Bytecode.Signed(a0));
    if a0 >= 128 {
      var v := if Reg(vm.stack, Last(vm).base, a0) == Null then Message else Null;
      assert Reg(Return(s, v).stack, Caller(s).base, a0) == Reg(vm.stack, Last(vm).base, a0);
    }
  }

  /** From 128 on it overwrites the slot 256 further down, which belongs to another frame. */
  lemma WideFrameClobbers(vm: VM, fn: Proto, at: int, a0: Bytecode.Byte, v: Value)
    requires Inv(vm) && !fn.generator && fn.size >= 1 && 1 <= at && 128 <= a0 < 255 && Register(Last(vm), a0)
    requires Last(vm).base + a0 - 256 >= 0
    ensures var s := Return(Called(vm, fn, at, Bytecode.Signed(a0)), v);
            && s.frames == vm.frames
            && At(s.stack, Last(vm).base + a0 - 256) == v && Last(vm).base + a0 - 256 < Last(vm).base - 1
            && Reg(s.stack, Last(vm).base, a0) == Reg(vm.stack, Last(vm).base, a0)
  {
    hide Inv;
    LastIsRunning(vm);
  }
}
