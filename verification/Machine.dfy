/** The virtual machine's own bookkeeping: one register stack, one trap stack
    with absolute positions, call records that hold offsets from the caller,
    and generators that keep a call record and their traps in reverse.  Every
    operation is proved to do what the list of frames in Frames does. */
module Machine {
  import opened Common
  import opened Frames

  /** A pushed trap: where to go, and the base and top to restore. */
  datatype Trap = Trap(ip: nat, base: int, top: int, target: nat)

  /** A call record; positions are offsets from the caller's base. */
  datatype CallInfo = CallInfo(prevBase: int, prevTop: int, target: int, etraps: nat, ncalls: nat,
                               gen: Option<nat>, root: bool, fn: nat, ip: nat)

  datatype Phase = RunningPhase | SuspendedPhase | DeadPhase

  datatype GenObject = GenObject(phase: Phase, stack: seq<Value>, ci: CallInfo, etraps: seq<Trap>)

  // ---------------------------------------------------------------- agreement

  function Pushed(f: Frame, i: nat): Trap
    requires i < |f.traps|
  {
    Trap(f.traps[i].ip, f.base, f.traps[i].top, f.traps[i].target)
  }

  function Absolute(f: Frame): (r: seq<Trap>)
    ensures |r| == |f.traps|
  {
    seq(|f.traps|, i requires 0 <= i < |f.traps| => Pushed(f, i))
  }

  /** The trap stack: the frames' traps one after the other. */
  function Flat(frames: seq<Frame>): seq<Trap> {
    if frames == [] then [] else Flat(frames[..|frames| - 1]) + Absolute(frames[|frames| - 1])
  }

  predicate MatchesCall(c: CallInfo, caller: Frame, f: Frame) {
    && c.prevBase == f.base - caller.base
    && c.prevTop == caller.top - caller.base
    && c.target == f.target && c.etraps == |f.traps| && c.ncalls == f.ncalls
    && c.gen == f.gen && c.root == f.root && c.fn == f.fn && c.ip == f.ip
  }

  predicate CallsMatch(calls: seq<CallInfo>, frames: seq<Frame>) {
    && |frames| == |calls| + 1
    && forall k :: 0 <= k < |calls| ==> MatchesCall(calls[k], frames[k], frames[k + 1])
  }

  /** A sleeping generator's traps are relative to its base and stand in reverse. */
  predicate MatchesGen(o: GenObject, s: Gen) {
    match s
    case Running => o.phase == RunningPhase && o.etraps == []
    case Dead => o.phase == DeadPhase && o.etraps == []
    case Suspended(regs, fn, ip, ncalls, root, traps) =>
      && o.phase == SuspendedPhase && o.stack == regs
      && o.ci.fn == fn && o.ci.ip == ip && o.ci.ncalls == ncalls && o.ci.root == root
      && o.ci.etraps == |traps| && o.etraps == Packed(traps)
  }

  function Packed(traps: seq<Handler>): (r: seq<Trap>)
    ensures |r| == |traps|
  {
    seq(|traps|, i requires 0 <= i < |traps| =>
      var h := traps[|traps| - 1 - i]; Trap(h.ip, 0, h.top, h.target))
  }

  predicate GensMatch(objects: seq<GenObject>, gens: seq<Gen>) {
    |objects| == |gens| && forall g :: 0 <= g < |gens| ==> MatchesGen(objects[g], gens[g])
  }

  lemma CallsDepth(calls: seq<CallInfo>, frames: seq<Frame>)
    requires CallsMatch(calls, frames)
    ensures |frames| == |calls| + 1
  {
  }

  lemma CallsMatchLeft(calls: seq<CallInfo>, frames: seq<Frame>)
    requires CallsMatch(calls, frames) && calls != []
    ensures CallsMatch(calls[..|calls| - 1], frames[..|frames| - 1])
  {
  }

  lemma CallsMatchEntered(calls: seq<CallInfo>, frames: seq<Frame>, c: CallInfo, f: Frame)
    requires CallsMatch(calls, frames) && MatchesCall(c, frames[|frames| - 1], f)
    ensures CallsMatch(calls + [c], frames + [f])
  {
  }

  lemma CallsMatchEdited(calls: seq<CallInfo>, frames: seq<Frame>, c: CallInfo, f: Frame)
    requires CallsMatch(calls, frames) && calls != [] && MatchesCall(c, frames[|frames| - 2], f)
    ensures CallsMatch(calls[..|calls| - 1] + [c], frames[..|frames| - 1] + [f])
  {
  }

  lemma FlatEdited(frames: seq<Frame>, f: Frame)
    requires frames != []
    ensures Flat(frames[..|frames| - 1] + [f]) == Flat(frames[..|frames| - 1]) + Absolute(f)
  {
    FlatSnoc(frames[..|frames| - 1], f);
  }

  lemma FlatTop(frames: seq<Frame>)
    requires frames != []
    ensures Flat(frames) == Flat(frames[..|frames| - 1]) + Absolute(frames[|frames| - 1])
    ensures |Flat(frames)| == |Flat(frames[..|frames| - 1])| + |frames[|frames| - 1].traps|
  {
  }

  function Relative(t: Trap, base: int): Trap {
    t.(base := t.base - base, top := t.top - base)
  }

  /** The last `n` traps, last one first, relative to `base`. */
  function Unloaded(traps: seq<Trap>, n: nat, base: int): (r: seq<Trap>)
    requires n <= |traps|
    ensures |r| == n
  {
    seq(n, i requires 0 <= i < n => Relative(traps[|traps| - 1 - i], base))
  }

  /** A generator's traps, last one first, made absolute at `base`. */
  function Loaded(etraps: seq<Trap>, base: int): (r: seq<Trap>)
    ensures |r| == |etraps|
  {
    seq(|etraps|, i requires 0 <= i < |etraps| =>
      var t := etraps[|etraps| - 1 - i]; t.(base := t.base + base, top := t.top + base))
  }

  lemma FlatSnoc(frames: seq<Frame>, f: Frame)
    ensures Flat(frames + [f]) == Flat(frames) + Absolute(f)
  {
    assert (frames + [f])[..|frames|] == frames;
  }

  /** What a yielding frame's traps become in its generator. */
  lemma UnloadedPacks(frames: seq<Frame>)
    requires frames != []
    ensures var f := frames[|frames| - 1];
            && |f.traps| <= |Flat(frames)|
            && Unloaded(Flat(frames), |f.traps|, f.base) == Packed(Shift(f.traps, -f.base))
            && Flat(frames)[..|Flat(frames)| - |f.traps|] == Flat(frames[..|frames| - 1])
  {
    var f := frames[|frames| - 1];
    FlatTop(frames);
    var flat := Flat(frames);
    assert flat[..|flat| - |f.traps|] == Flat(frames[..|frames| - 1]);
    forall i | 0 <= i < |f.traps|
      ensures Unloaded(flat, |f.traps|, f.base)[i] == Packed(Shift(f.traps, -f.base))[i]
    {
      hide Flat;
      UnloadedAt(Flat(frames[..|frames| - 1]), f, i);
    }
  }

  lemma UnloadedAt(under: seq<Trap>, f: Frame, i: nat)
    requires i < |f.traps|
    ensures Unloaded(under + Absolute(f), |f.traps|, f.base)[i] == Packed(Shift(f.traps, -f.base))[i]
  {
    var flat := under + Absolute(f);
    var j := |f.traps| - 1 - i;
    assert flat[|flat| - 1 - i] == Pushed(f, j);
  }

  /** Writing one more register extends what has been written; a slot at or above it is still the old one. */
  lemma WrittenNext(stack: seq<Value>, base: int, regs: seq<Value>, n: nat, src: int)
    requires 0 <= base && n < |regs| && base + n < |stack| && base + n <= src < |stack|
    ensures Written(stack, base, regs[..n])[base + n := regs[n]] == Written(stack, base, regs[..n + 1])
    ensures Written(stack, base, regs[..n])[src] == stack[src]
  {
  }

  lemma RunningObject(objects: seq<GenObject>, gens: seq<Gen>, g: nat)
    requires GensMatch(objects, gens) && g < |gens| && gens[g].Running?
    ensures g < |objects| && objects[g].phase == RunningPhase && objects[g].etraps == []
  {
  }

  lemma GensMatchEdited(objects: seq<GenObject>, gens: seq<Gen>, g: nat, o: GenObject, s: Gen)
    requires GensMatch(objects, gens) && g < |gens| && MatchesGen(o, s)
    ensures |objects| == |gens| && GensMatch(objects[g := o], gens[g := s])
  {
  }

  lemma AllResumable(vm: VM, g: nat)
    requires Inv(vm) && g < |vm.gens|
    ensures Resumable(vm.gens[g])
  {
  }

  /** The stack after a return from `f` with `v`. */
  function Handed(stack: seq<Value>, caller: Frame, f: Frame, v: Value): seq<Value> {
    Cleared(if f.root || f.target == -1 then stack else Put(stack, caller.base + f.target, v), caller.top, f.top)
  }

  lemma ReturnShape(vm: VM, v: Value)
    requires Alive(vm)
    ensures Return(vm, v) == VM(vm.frames[..|vm.frames| - 1], Handed(vm.stack, Caller(vm), Last(vm), v), vm.gens,
                                if Last(vm).root then Returned(v) else vm.event)
  {
  }

  lemma VacatedShape(vm: VM, g: nat, reg: int, live: int)
    requires Alive(vm) && g < |vm.gens| && Last(vm).base < Last(vm).top
    ensures var f := Last(vm);
            var m := Vacated(vm, g, reg, live);
            && m.frames == vm.frames[..|vm.frames| - 1] + [f.(traps := [])]
            && m.stack == Put(Cleared(vm.stack, f.base, f.top - 1), f.base + reg, At(vm.stack, f.base + reg))
            && m.event == vm.event
            && m.gens == vm.gens[g := Suspended(Saved(vm.stack, f.base, f.top - f.base, live), f.fn, f.ip, f.ncalls,
                f.root, Shift(f.traps, -f.base))]
  {
    hide Saved, Shift, Cleared, Put;
  }

  lemma YieldedByReturn(vm: VM, g: nat, has: bool, reg: int, live: int)
    requires Alive(vm) && Last(vm).gen == Some(g)
    requires |Vacated(vm, g, reg, live).frames| >= 2
    ensures Yielded(vm, has, reg, live) == Return(Vacated(vm, g, reg, live), if has then At(vm.stack, Last(vm).base + reg) else Null)
  {
    hide Saved, Shift, Cleared, Put, Return, Suspend;
  }

  lemma YieldedShape(vm: VM, g: nat, has: bool, reg: int, live: int)
    requires Alive(vm) && Last(vm).gen == Some(g) && g < |vm.gens| && Last(vm).base < Last(vm).top
    ensures |Vacated(vm, g, reg, live).stack| == |vm.stack| && Vacated(vm, g, reg, live).event == vm.event
    ensures var m := Vacated(vm, g, reg, live);
            var v := if has then At(vm.stack, Last(vm).base + reg) else Null;
            Yielded(vm, has, reg, live)
            == VM(vm.frames[..|vm.frames| - 1], Handed(m.stack, Caller(vm), Last(vm), v), m.gens,
                  if Last(vm).root then Returned(v) else vm.event)
  {
    hide Saved, Shift, Cleared, Put, Return, Suspend, Yielded, Vacated;
    VacatedShape(vm, g, reg, live);
    YieldedByReturn(vm, g, has, reg, live);
    ReturnShape(Vacated(vm, g, reg, live), if has then At(vm.stack, Last(vm).base + reg) else Null);
  }

  /** What calling a generator function leaves, from the state with its frame pushed. */
  function GeneratorLeft(vm: VM, fn: Proto, target: int): VM
    requires Alive(vm)
  {
    var g := |vm.gens|;
    var mid := Suspend(vm.(gens := vm.gens + [Running]), g, fn.size);
    var back := VM(vm.frames[..|vm.frames| - 1], Cleared(mid.stack, Caller(vm).top, Last(vm).top), mid.gens, vm.event);
    back.(stack := Put(back.stack, Caller(vm).base + target, Generator(g)))
  }

  lemma MadeFromFrame(vm: VM, fn: Proto, at: int, target: int)
    requires vm.frames != []
    ensures MakeGenerator(vm, fn, at, target) == GeneratorLeft(Entered(vm, Fresh(fn, Last(vm).base + at, target, false)), fn, target)
  {
  }

  lemma SuspendedShape(vm: VM, g: nat, live: int)
    requires vm.frames != [] && g < |vm.gens| && Last(vm).base < Last(vm).top
    ensures var f := Last(vm);
            var m := Suspend(vm, g, live);
            && m.frames == vm.frames[..|vm.frames| - 1] + [f.(traps := [])]
            && m.stack == Cleared(vm.stack, f.base, f.top - 1)
            && m.event == vm.event
            && m.gens == vm.gens[g := Suspended(Saved(vm.stack, f.base, f.top - f.base, live), f.fn, f.ip, f.ncalls,
                f.root, Shift(f.traps, -f.base))]
  {
    hide Saved, Shift, Cleared;
  }

  lemma PutIn(stack: seq<Value>, i: int, v: Value)
    requires 0 <= i < |stack|
    ensures Put(stack, i, v) == stack[i := v]
  {
  }

  lemma CallsTop(calls: seq<CallInfo>, frames: seq<Frame>)
    requires CallsMatch(calls, frames) && calls != []
    ensures |frames| >= 2 && MatchesCall(calls[|calls| - 1], frames[|frames| - 2], frames[|frames| - 1])
  {
  }

  /** What a resumed generator's traps become on the trap stack. */
  lemma LoadedUnpacks(f: Frame, traps: seq<Handler>)
    requires f.traps == Shift(traps, f.base)
    ensures Loaded(Packed(traps), f.base) == Absolute(f)
  {
  }

  /** After `i` of the copies that move arguments down. */
  ghost predicate MovedUpTo(was: seq<Value>, base: int, from: int, nargs: nat, i: nat, now: seq<Value>) {
    i <= nargs && |now| == |was| && now == Written(was, base, Slice(was, base + from, i))
  }

  lemma MovedStart(was: seq<Value>, base: int, from: int, nargs: nat)
    ensures MovedUpTo(was, base, from, nargs, 0, was)
  {
  }

  lemma MovedNext(was: seq<Value>, base: int, from: int, nargs: nat, i: nat, now: seq<Value>)
    requires MovedUpTo(was, base, from, nargs, i, now) && i < nargs && 0 <= base && 0 <= from && base + from + nargs <= |was|
    ensures MovedUpTo(was, base, from, nargs, i + 1, now[base + i := now[base + from + i]])
  {
    var args := Slice(was, base + from, i + 1);
    assert args[..i] == Slice(was, base + from, i);
    assert args[i] == was[base + from + i];
    WrittenNext(was, base, args, i, base + from + i);
    assert args[..i + 1] == args;
  }

  class Machine {
    var stack: seq<Value>
    var base: int
    var top: int
    var calls: seq<CallInfo>
    var traps: seq<Trap>
    var gens: seq<GenObject>
    var event: Event
    ghost var vm: VM

    /** The fields hold exactly what the list of frames `v` says. */
    ghost predicate Linked(v: VM)
      reads this
    {
      && v.frames != []
      && stack == v.stack && event == v.event
      && base == Last(v).base && top == Last(v).top
      && CallsMatch(calls, v.frames)
      && traps == Flat(v.frames)
      && GensMatch(gens, v.gens)
    }

    ghost predicate Valid()
      reads this
    {
      Linked(vm) && Inv(vm)
    }

    constructor (size: nat)
      requires size > OVERHEAD
      ensures Valid()
      ensures vm == VM([Frame(0, 1, -1, 0, 0, 0, None, false, [])], seq(size, _ => Null), [], Silent)
    {
      stack := seq(size, _ => Null);
      base, top, calls, traps, gens, event := 0, 1, [], [], [], Silent;
      vm := VM([Frame(0, 1, -1, 0, 0, 0, None, false, [])], seq(size, _ => Null), [], Silent);
    }

    // ------------------------------------------------------------ stack slots

    /** Sets the slots from `high` down to `low` to null. */
    method ClearSlots(low: int, high: int)
      requires 0 <= low && high < |stack|
      modifies this`stack
      ensures stack == Cleared(old(stack), low, high)
    {
      var i := high;
      while i >= low
        invariant i <= high && |stack| == |old(stack)|
        invariant stack == Cleared(old(stack), if i < low then low else i + 1, high)
      {
        stack := stack[i := Null];
        i := i - 1;
      }
    }

    /** Copies `nargs` registers down to the frame's base. */
    method MoveArguments(from: int, nargs: nat)
      requires 0 <= base && 0 <= from && base + from + nargs <= |stack|
      modifies this`stack
      ensures stack == Moved(old(stack), base, from, nargs)
    {
      ghost var was := stack;
      var i := 0;
      MovedStart(was, base, from, nargs);
      while i < nargs
        invariant 0 <= i <= nargs && MovedUpTo(was, base, from, nargs, i, stack)
      {
        MovedNext(was, base, from, nargs, i, stack);
        stack := stack[base + i := stack[base + from + i]];
        i := i + 1;
      }
    }

    // ----------------------------------------------------------------- frames

    method EnterFrame(newbase: int, newtop: int)
      requires 0 <= newtop
      modifies this`stack, this`base, this`top, this`calls
      ensures base == newbase && top == newtop && stack == Grown(old(stack), newtop)
      ensures calls == old(calls) + [CallInfo(newbase - old(base), old(top) - old(base), 0, 0, 1, None, false, 0, 0)]
    {
      calls := calls + [CallInfo(newbase - base, top - base, 0, 0, 1, None, false, 0, 0)];
      base, top := newbase, newtop;
      GrowStack();
    }

    method GrowStack()
      requires 0 <= top
      modifies this`stack
      ensures stack == Grown(old(stack), top)
    {
      if top + 15 > |stack| {
        stack := stack + seq(top + 60 - |stack|, _ => Null);
      }
    }

    /** Drops the innermost call record and restores the caller's base and top. */
    method LeaveFrame()
      requires calls != []
      requires 0 <= base - calls[|calls| - 1].prevBase + calls[|calls| - 1].prevTop && top < |stack|
      modifies this`stack, this`base, this`top, this`calls
      ensures calls == old(calls[..|calls| - 1])
      ensures base == old(base - calls[|calls| - 1].prevBase) && top == base + old(calls[|calls| - 1].prevTop)
      ensures stack == Cleared(old(stack), top, old(top))
    {
      var last := top;
      var ci := calls[|calls| - 1];
      calls := calls[..|calls| - 1];
      base := base - ci.prevBase;
      top := base + ci.prevTop;
      ClearSlots(top, last);
    }

    // ------------------------------------------------------------- generators

    /** Moves the frame's traps, last one first, into the generator's own list. */
    method UnloadTraps(g: nat, n: nat)
      requires g < |gens| && n <= |traps|
      modifies this`traps, this`gens
      ensures traps == old(traps)[..|old(traps)| - n]
      ensures gens == old(gens)[g := old(gens)[g].(etraps := old(gens)[g].etraps + Unloaded(old(traps), n, base))]
    {
      var i := 0;
      ghost var moved := Unloaded(traps, n, base);
      while i < n
        invariant 0 <= i <= n
        invariant traps == old(traps)[..|old(traps)| - i]
        invariant g < |gens| && gens[g].etraps == old(gens)[g].etraps + moved[..i]
        invariant gens == old(gens)[g := old(gens)[g].(etraps := gens[g].etraps)]
      {
        var t := traps[|traps| - 1];
        assert Relative(t, base) == moved[i];
        gens := gens[g := gens[g].(etraps := gens[g].etraps + [Relative(t, base)])];
        traps := traps[..|traps| - 1];
        i := i + 1;
      }
      assert moved[..n] == moved;
    }

    /** Moves `n` traps back, making them absolute again. */
    method LoadTraps(g: nat, n: nat, newbase: int)
      requires g < |gens| && n == |gens[g].etraps|
      modifies this`traps, this`gens
      ensures traps == old(traps) + Loaded(old(gens)[g].etraps, newbase)
      ensures gens == old(gens)[g := old(gens)[g].(etraps := [])]
    {
      var i := 0;
      ghost var kept := gens[g].etraps;
      ghost var moved := Loaded(kept, newbase);
      while i < n
        invariant 0 <= i <= n
        invariant traps == old(traps) + moved[..i]
        invariant g < |gens| && gens[g].etraps == kept[..n - i]
        invariant gens == old(gens)[g := old(gens)[g].(etraps := gens[g].etraps)]
      {
        var own := gens[g].etraps;
        var t := own[|own| - 1];
        assert moved[i] == t.(base := t.base + newbase, top := t.top + newbase);
        traps := traps + [t.(base := t.base + newbase, top := t.top + newbase)];
        gens := gens[g := gens[g].(etraps := own[..|own| - 1])];
        i := i + 1;
      }
      assert moved[..n] == moved && kept[..0] == [];
    }

    /** The registers a generator keeps: the first one and those below `live`. */
    method SaveRegisters(size: nat, live: int) returns (regs: seq<Value>)
      requires 1 <= size && live <= size && 0 <= base && base + size <= |stack|
      ensures regs == Saved(stack, base, size, live)
    {
      regs := seq(size, _ => Null);
      regs := regs[0 := stack[base]];
      var n := 1;
      assert forall i :: 0 <= i < size ==> regs[i] == Saved(stack, base, size, 1)[i];
      while n < live
        invariant 1 <= n && (n <= live || n == 1) && |regs| == size
        invariant regs == Saved(stack, base, size, n)
      {
        regs := regs[n := stack[base + n]];
        n := n + 1;
      }
      assert Saved(stack, base, size, n) == Saved(stack, base, size, live);
    }

    method RestoreRegisters(regs: seq<Value>)
      requires 0 <= base && base + |regs| <= |stack| && regs != []
      modifies this`stack
      ensures stack == Written(old(stack), base, regs)
    {
      stack := stack[base := regs[0]];
      var n := 1;
      while n < |regs|
        invariant 1 <= n <= |regs| && |stack| == |old(stack)|
        invariant stack == Written(old(stack), base, regs[..n])
      {
        WrittenNext(old(stack), base, regs, n, base + n);
        stack := stack[base + n := regs[n]];
        n := n + 1;
      }
      assert regs[..n] == regs;
    }

    /** Suspends generator `g`, which must be running, with the innermost frame's state. */
    method GeneratorYield(g: nat, live: int) returns (ok: bool)
      requires g < |gens| && calls != [] && calls[|calls| - 1].etraps <= |traps|
      requires 0 <= base < top <= |stack| && live <= top - base
      modifies this`stack, this`traps, this`gens
      ensures ok <==> old(gens)[g].phase == RunningPhase
      ensures !ok ==> stack == old(stack) && traps == old(traps) && gens == old(gens)
      ensures ok ==>
                var ci := calls[|calls| - 1];
                && stack == Cleared(old(stack), base, top - 1)
                && traps == old(traps)[..|old(traps)| - ci.etraps]
                && gens == old(gens)[g := GenObject(SuspendedPhase, Saved(old(stack), base, top - base, live), ci.(gen := None),
                                                    old(gens)[g].etraps + Unloaded(old(traps), ci.etraps, base))]
    {
      if gens[g].phase == SuspendedPhase { return false; }
      if gens[g].phase == DeadPhase { return false; }
      var regs := SaveRegisters(top - base, live);
      ClearSlots(base, top - 1);
      var ci := calls[|calls| - 1];
      gens := gens[g := gens[g].(stack := regs, ci := ci.(gen := None))];
      UnloadTraps(g, ci.etraps);
      gens := gens[g := gens[g].(phase := SuspendedPhase)];
      return true;
    }

    /** Puts suspended generator `g` into a new frame on top of the present one. */
    method GeneratorResume(g: nat, target: int) returns (ok: bool)
      requires g < |gens| && 0 <= base < top <= |stack|
      requires gens[g].phase == SuspendedPhase ==> gens[g].stack != [] && gens[g].ci.etraps == |gens[g].etraps|
      modifies this`stack, this`base, this`top, this`calls, this`traps, this`gens
      ensures ok <==> old(gens)[g].phase == SuspendedPhase
      ensures !ok ==> stack == old(stack) && traps == old(traps) && gens == old(gens)
      ensures !ok ==> calls == old(calls) && base == old(base) && top == old(top)
      ensures ok ==>
                var o := old(gens)[g];
                && base == old(top) && top == old(top) + |o.stack|
                && stack == Written(Grown(old(stack), top), base, o.stack)
                && traps == old(traps) + Loaded(o.etraps, base)
                && calls == old(calls) + [CallInfo(old(top - base), old(top - base), target, o.ci.etraps, o.ci.ncalls,
                                                   Some(g), o.ci.root, o.ci.fn, o.ci.ip)]
                && |gens| == |old(gens)| && gens[g].phase == RunningPhase && gens[g].etraps == []
                && forall h :: 0 <= h < |gens| && h != g ==> gens[h] == old(gens)[h]
    {
      if gens[g].phase == DeadPhase { return false; }
      if gens[g].phase == RunningPhase { return false; }
      var size := |gens[g].stack|;
      var newbase := top;
      EnterFrame(top, top + size);
      var ci := gens[g].ci;
      SetInnermost(calls[|calls| - 1].(gen := Some(g), target := target, fn := ci.fn, ip := ci.ip,
                                       ncalls := ci.ncalls, etraps := ci.etraps, root := ci.root));
      LoadTraps(g, ci.etraps, newbase);
      RestoreRegisters(gens[g].stack);
      var used := gens[g].stack;
      gens := gens[g := gens[g].(stack := seq(size, i requires 0 <= i < size => if i == 0 then used[0] else Null), phase := RunningPhase)];
      return true;
    }

    /** Overwrites the innermost call record. */
    method SetInnermost(ci: CallInfo)
      requires calls != []
      modifies this`calls
      ensures calls == old(calls)[..|old(calls)| - 1] + [ci]
    {
      calls := calls[..|calls| - 1] + [ci];
    }

    /** Ends the generator for good. */
    method Kill(g: nat)
      requires g < |gens|
      modifies this`gens
      ensures gens == old(gens)[g := old(gens)[g].(phase := DeadPhase, stack := [])]
    {
      gens := gens[g := gens[g].(phase := DeadPhase, stack := [])];
    }

    // ------------------------------------------------------------- operations

    /** The innermost call record agrees with the innermost frame. */
    lemma Innermost()
      requires Linked(vm) && Inv(vm) && Alive(vm)
      ensures calls != [] && MatchesCall(calls[|calls| - 1], Caller(vm), Last(vm))
      ensures |traps| >= |Last(vm).traps|
      ensures Sized(Last(vm), |stack|) && Sized(Caller(vm), |stack|) && Nested(Caller(vm), Last(vm))
    {
      hide Inv;
      Inside(vm, |vm.frames| - 1);
      Inside(vm, |vm.frames| - 2);
      FlatTop(vm.frames);
    }

    /** Raises `err`: unwinds to the innermost handler, or out of the native run. */
    method Raise(err: Value)
      requires Valid()
      modifies this
      ensures Linked(vm) && vm == Throw(old(vm), err)
    {
      hide Inv, Land, Leave, Killed, CallsMatch, GensMatch, Flat;
      var limit := top;
      ghost var start := vm;
      LastIsRunning(vm);
      CallsDepth(calls, vm.frames);
      while calls != []
        invariant Linked(vm) && Inv(vm) && limit < |stack|
        invariant |vm.frames| == |calls| + 1
        invariant Unwind(vm, err, limit) == Unwind(start, err, limit)
        decreases |calls|
      {
        Innermost();
        var ci := calls[|calls| - 1];
        if ci.etraps > 0 {
          LandHere(err, limit);
          return;
        }
        LeaveKilled();
        CallsDepth(calls, vm.frames);
        if ci.root {
          event := Uncaught(err);
          vm := vm.(event := Uncaught(err));
          return;
        }
      }
      event := Uncaught(err);
      vm := vm.(event := Uncaught(err));
    }

    /** Goes on at the frame's last trap. */
    method LandHere(err: Value, limit: int)
      requires Linked(vm) && Inv(vm) && calls != [] && Last(vm).traps != [] && limit < |stack|
      modifies this
      ensures Linked(vm) && vm == Land(old(vm), err, limit)
    {
      hide Inv, CallsMatch, GensMatch, Flat, Cleared;
      CallsDepth(calls, vm.frames);
      Innermost();
      ghost var f := Last(vm);
      ghost var v := Land(vm, err, limit);
      FlatTop(vm.frames);
      var ci := calls[|calls| - 1];
      var et := traps[|traps| - 1];
      assert et == Pushed(f, |f.traps| - 1);
      top := et.top;
      base := et.base;
      stack := stack[base + et.target := err];
      traps := traps[..|traps| - 1];
      SetInnermost(ci.(ip := et.ip, etraps := ci.etraps - 1));
      ClearSlots(top, limit);
      CallsMatchEdited(old(calls), vm.frames, calls[|calls| - 1], Last(v));
      FlatEdited(vm.frames, Last(v));
      assert Absolute(f)[..|f.traps| - 1] == Absolute(Last(v));
      vm := v;
    }

    /** Kills the frame's generator, if any, and leaves the frame. */
    method LeaveKilled()
      requires Linked(vm) && Inv(vm) && calls != [] && Last(vm).traps == []
      modifies this
      ensures Linked(vm) && Inv(vm) && vm == Leave(Killed(old(vm), Last(old(vm)).gen))
      ensures |calls| < |old(calls)| && |stack| == |old(stack)|
    {
      hide Inv, CallsMatch, Flat;
      CallsDepth(calls, vm.frames);
      Innermost();
      LastIsRunning(vm);
      FlatTop(vm.frames);
      LeftInv(vm);
      ghost var v := Leave(Killed(vm, Last(vm).gen));
      var ci := calls[|calls| - 1];
      if ci.gen.Some? { Kill(ci.gen.value); }
      LeaveFrame();
      CallsMatchLeft(old(calls), vm.frames);
      vm := v;
    }

    /** Hands `v` to native code or to the caller's target register, and leaves the frame. */
    method Deliver(v: Value)
      requires calls != [] && top < |stack|
      requires var ci := calls[|calls| - 1];
               var callerBase := base - ci.prevBase;
               && 0 <= callerBase + ci.prevTop
               && (ci.root || ci.target == -1 || 0 <= callerBase + ci.target < |stack|)
      modifies this`stack, this`base, this`top, this`calls, this`event
      ensures var ci := old(calls[|calls| - 1]);
              && calls == old(calls[..|calls| - 1])
              && base == old(base) - ci.prevBase && top == base + ci.prevTop
              && event == (if ci.root then Returned(v) else old(event))
              && stack == Cleared(if ci.root || ci.target == -1 then old(stack) else Put(old(stack), base + ci.target, v), top, old(top))
    {
      var ci := calls[|calls| - 1];
      var callerBase := base - ci.prevBase;
      if ci.root {
        event := Returned(v);
      } else if ci.target != -1 {
        stack := stack[callerBase + ci.target := v];
      }
      LeaveFrame();
    }

    /** RETURN: the generator, if the frame is one's, is over. */
    method Finish(result: Option<int>)
      requires Valid() && Legal(vm, Ret(result))
      modifies this
      ensures Linked(vm) && vm == Finished(old(vm), result)
    {
      hide Inv, CallsMatch, Flat, Return, Cleared, Put, GensMatch;
      CallsDepth(calls, vm.frames);
      Innermost();
      LastIsRunning(vm);
      FlatTop(vm.frames);
      ghost var g := Last(vm).gen;
      ReturnShape(Killed(vm, g), if result.Some? then stack[base + result.value] else Null);
      var ci := calls[|calls| - 1];
      if ci.gen.Some? {
        RunningObject(gens, vm.gens, ci.gen.value);
        Kill(ci.gen.value);
        GensMatchEdited(old(gens), vm.gens, ci.gen.value, gens[ci.gen.value], Dead);
      }
      Deliver(if result.Some? then stack[base + result.value] else Null);
      CallsMatchLeft(old(calls), vm.frames);
      vm := Finished(vm, result);
    }

    /** YIELD: outside a generator it raises an error. */
    method YieldOp(has: bool, reg: int, live: int)
      requires Valid() && Legal(vm, Yield(has, reg, live))
      modifies this
      ensures Linked(vm) && vm == Yielded(old(vm), has, reg, live)
    {
      hide Inv, CallsMatch, Flat, Unwind;
      CallsDepth(calls, vm.frames);
      Innermost();
      LastIsRunning(vm);
      var ci := calls[|calls| - 1];
      if ci.gen.Some? {
        YieldFrame(ci.gen.value, has, reg, live);
      } else {
        Raise(Message);
      }
    }

    /** Delivers to the caller `c` of the innermost frame `f`. */
    method Handover(v: Value, ghost c: Frame, ghost f: Frame)
      requires calls != [] && MatchesCall(calls[|calls| - 1], c, f)
      requires Nested(c, f) && Sized(c, |stack|) && Sized(f, |stack|) && base == f.base && top == f.top
      modifies this`stack, this`base, this`top, this`calls, this`event
      ensures calls == old(calls[..|calls| - 1]) && base == c.base && top == c.top
      ensures stack == Handed(old(stack), c, f, v) && event == (if f.root then Returned(v) else old(event))
    {
      hide Cleared, Put;
      Deliver(v);
    }

    method YieldFrame(g: nat, has: bool, reg: int, live: int)
      requires Valid() && Alive(vm) && Register(Last(vm), reg) && live <= top - base && Last(vm).gen == Some(g)
      modifies this
      ensures Linked(vm) && vm == Yielded(old(vm), has, reg, live)
    {
      hide Inv, Legal, CallsMatch, Flat, Packed, Yielded, Vacated, Return, Saved, Shift, Cleared, Handed, GensMatch, Unloaded;
      CallsDepth(calls, vm.frames);
      Innermost();
      LastIsRunning(vm);
      YieldedShape(vm, g, has, reg, live);
      ghost var m := Vacated(vm, g, reg, live);
      var v := if has then stack[base + reg] else Null;
      Vacate(g, reg, live, m);
      Handover(v, Caller(vm), Last(vm));
      CallsMatchLeft(old(calls), vm.frames);
      vm := Yielded(vm, has, reg, live);
    }

    /** Suspends the running generator `g`; what it yields stays in its register. */
    method Vacate(g: nat, reg: int, live: int, ghost m: VM)
      requires Linked(vm) && |vm.frames| >= 2 && g < |vm.gens| && vm.gens[g].Running?
      requires 0 <= base < top <= |stack| && live <= top - base && 0 <= reg < top - base
      requires m == Vacated(vm, g, reg, live)
      modifies this`stack, this`traps, this`gens
      ensures stack == m.stack && traps == Flat(vm.frames[..|vm.frames| - 1]) && GensMatch(gens, m.gens)
    {
      hide CallsMatch, Flat, Packed, Vacated, Saved, Shift, Cleared, GensMatch, Unloaded;
      CallsDepth(calls, vm.frames);
      CallsTop(calls, vm.frames);
      VacatedShape(vm, g, reg, live);
      UnloadedPacks(vm.frames);
      RunningObject(gens, vm.gens, g);
      var value := stack[base + reg];
      var ok := GeneratorYield(g, live);
      assert ok && gens[g].etraps == Packed(Shift(Last(vm).traps, -base));
      GensMatchEdited(old(gens), vm.gens, g, gens[g], m.gens[g]);
      stack := stack[base + reg := value];
    }

    /** RESUME: anything but a suspended generator raises an error. */
    method ResumeOp(reg: int, target: int)
      requires Valid() && Legal(vm, Resume(reg, target))
      modifies this
      ensures Linked(vm) && vm == Woken(old(vm), reg, target)
    {
      hide Inv, CallsMatch, Flat, Resumed, Unwind;
      LastIsRunning(vm);
      var v := stack[base + reg];
      if v.Generator? && v.id < |gens| {
        var ok := ResumeFrame(v.id, target);
        if !ok { Raise(Message); }
      } else {
        Raise(Message);
      }
    }

    method ResumeFrame(g: nat, target: int) returns (ok: bool)
      requires Valid() && g < |gens|
      modifies this
      ensures Linked(vm) && g < |old(vm).gens| && (ok <==> old(vm).gens[g].Suspended?)
      ensures vm == if ok then Resumed(old(vm), g, target) else old(vm)
      ensures ok ==> |vm.frames| >= 2
    {
      hide Inv, CallsMatch, Flat, Packed;
      LastIsRunning(vm);
      AllResumable(vm, g);
      var o := gens[g];
      ok := GeneratorResume(g, target);
      if ok {
        ghost var v := Resumed(vm, g, target);
        CallsMatchEntered(old(calls), vm.frames, calls[|calls| - 1], Last(v));
        LoadedUnpacks(Last(v), vm.gens[g].traps);
        FlatSnoc(vm.frames, Last(v));
        vm := v;
      }
    }

    /** Native code resumes a generator: on success its frame becomes a root frame. */
    method HostResumeOp(g: nat, reg: int)
      requires Valid() && Legal(vm, HostResume(g, reg))
      modifies this
      ensures Linked(vm) && vm == WokenByHost(old(vm), g, reg)
    {
      hide Inv, CallsMatch, Flat, Resumed;
      var ok := ResumeFrame(g, reg);
      if ok {
        CallsDepth(calls, vm.frames);
        CallsTop(calls, vm.frames);
        EditLast(calls[|calls| - 1].(root := true), Last(vm).(root := true));
      } else {
        event := Uncaught(Message);
        vm := vm.(event := Uncaught(Message));
      }
    }

    /** The innermost frame changes in place. */
    method EditLast(ci: CallInfo, ghost f: Frame)
      requires Linked(vm) && calls != [] && vm.frames != []
      requires |vm.frames| >= 2 && MatchesCall(ci, Caller(vm), f) && Absolute(f) == Absolute(Last(vm)) && f.base == base && f.top == top
      modifies this`calls, this`vm
      ensures Linked(vm) && vm == WithLast(old(vm), f)
    {
      hide Flat;
      SetInnermost(ci);
      CallsMatchEdited(old(calls), vm.frames, ci, f);
      FlatEdited(vm.frames, f);
      FlatTop(vm.frames);
      vm := WithLast(vm, f);
    }

    /** A call: a frame for a plain function, a suspended generator for a generator function. */
    method StartCall(fn: Proto, at: int, target: int)
      requires Valid() && Legal(vm, Call(fn, at, target))
      modifies this
      ensures Linked(vm) && vm == Called(old(vm), fn, at, target)
    {
      hide Inv, CallsMatch, Flat, MakeGenerator, GeneratorLeft;
      Innermost();
      ghost var start := vm;
      BeginFrame(fn, base + at, target, false);
      if fn.generator {
        assert Caller(vm) == Last(start);
        CreateGenerator(fn, at, target);
        MadeFromFrame(start, fn, at, target);
      }
    }

    /** Native code calls a script function; its frame is a root frame. */
    method HostCallOp(fn: Proto, nargs: nat)
      requires Valid() && Legal(vm, HostCall(fn, nargs))
      modifies this
      ensures Linked(vm) && vm == CalledByHost(old(vm), fn, nargs)
    {
      hide Inv, CallsMatch, Flat;
      LastIsRunning(vm);
      BeginFrame(fn, top - nargs, top - nargs, true);
    }

    /** TAILCALL: the frame is reused; its top never goes down. */
    method TailCallOp(fn: Proto, from: int, nargs: nat)
      requires Valid() && Legal(vm, TailCall(fn, from, nargs))
      modifies this
      ensures Linked(vm) && vm == Replaced(old(vm), fn, from, nargs)
    {
      hide Inv, CallsMatch, Flat, Moved, Grown;
      Innermost();
      ghost var v := Replaced(vm, fn, from, nargs);
      var last := top;
      MoveArguments(from, nargs);
      var ci := calls[|calls| - 1];
      top := base + fn.size;
      GrowStack();
      SetInnermost(ci.(ncalls := ci.ncalls + 1, fn := fn.entry, ip := fn.entry));
      if last >= top {
        top := last;
      }
      CallsMatchEdited(old(calls), vm.frames, calls[|calls| - 1], Last(v));
      FlatEdited(vm.frames, Last(v));
      FlatTop(vm.frames);
      assert Absolute(Last(v)) == Absolute(Last(vm));
      vm := v;
    }

    method PushTrapOp(ip: nat, catcher: nat)
      requires Valid() && Legal(vm, PushTrap(ip, catcher))
      modifies this
      ensures Linked(vm) && vm == Trapped(old(vm), ip, catcher)
    {
      hide Inv, CallsMatch, Flat;
      Innermost();
      ghost var v := Trapped(vm, ip, catcher);
      traps := traps + [Trap(ip, base, top, catcher)];
      var ci := calls[|calls| - 1];
      SetInnermost(ci.(etraps := ci.etraps + 1));
      CallsMatchEdited(old(calls), vm.frames, calls[|calls| - 1], Last(v));
      FlatEdited(vm.frames, Last(v));
      FlatTop(vm.frames);
      assert Absolute(Last(v)) == Absolute(Last(vm)) + [Trap(ip, base, top, catcher)];
      vm := v;
    }

    method PopTrapOp(count: nat)
      requires Valid() && Legal(vm, PopTrap(count))
      modifies this
      ensures Linked(vm) && vm == Untrapped(old(vm), count)
    {
      hide Inv, CallsMatch, Flat;
      Innermost();
      ghost var v := Untrapped(vm, count);
      FlatTop(vm.frames);
      ghost var n := |Last(vm).traps|;
      var i := 0;
      while i < count
        invariant 0 <= i <= count <= n && calls != []
        invariant traps == old(traps)[..|old(traps)| - i]
        invariant calls == old(calls)[..|old(calls)| - 1] + [old(calls)[|old(calls)| - 1].(etraps := n - i)]
        invariant vm == old(vm) && stack == old(stack) && gens == old(gens) && base == old(base) && top == old(top) && event == old(event)
      {
        traps := traps[..|traps| - 1];
        var ci := calls[|calls| - 1];
        SetInnermost(ci.(etraps := ci.etraps - 1));
        i := i + 1;
      }
      CallsMatchEdited(old(calls), vm.frames, calls[|calls| - 1], Last(v));
      FlatEdited(vm.frames, Last(v));
      assert Absolute(Last(v)) == Absolute(Last(vm))[..|Last(vm).traps| - count];
      vm := v;
    }

    // ------------------------------------------------------------------- runs

    /** Every operation does to the fields what the list of frames says. */
    method Do(op: Op)
      requires Valid() && Legal(vm, op)
      modifies this
      ensures Valid() && vm == Step(old(vm), op)
    {
      hide Inv, CallsMatch, GensMatch, Flat, Unwind, Called, CalledByHost, Replaced, Finished, Trapped, Untrapped,
          Yielded, Woken, WokenByHost;
      StepKeepsInv(vm, op);
      SetKeepsInv(vm, vm.stack, Silent);
      LastIsRunning(vm);
      event := Silent;
      vm := vm.(event := Silent);
      match op
      case Set(reg, v) =>
        stack := stack[base + reg := v];
        vm := vm.(stack := stack);
      case Jump(ip) =>
        Innermost();
        EditLast(calls[|calls| - 1].(ip := ip), Last(vm).(ip := ip));
      case HostCall(fn, nargs) => HostCallOp(fn, nargs);
      case HostResume(g, reg) => HostResumeOp(g, reg);
      case Call(fn, at, target) => StartCall(fn, at, target);
      case TailCall(fn, from, nargs) => TailCallOp(fn, from, nargs);
      case Ret(result) => Finish(result);
      case PushTrap(ip, catcher) => PushTrapOp(ip, catcher);
      case PopTrap(count) => PopTrapOp(count);
      case Raise(error) => Raise(error);
      case Yield(has, reg, live) => YieldOp(has, reg, live);
      case Resume(reg, target) => ResumeOp(reg, target);
    }

    /** Any run of the machine is the run of the list of frames. */
    method Perform(ops: seq<Op>)
      requires Valid() && LegalRun(vm, ops)
      modifies this
      ensures Valid() && vm == Run(old(vm), ops)
    {
      hide Inv, Act;
      var i := 0;
      while i < |ops|
        invariant 0 <= i <= |ops| && Valid() && LegalRun(vm, ops[i..])
        invariant Run(vm, ops[i..]) == Run(old(vm), ops)
      {
        assert ops[i..][1..] == ops[i + 1..];
        Do(ops[i]);
        i := i + 1;
      }
    }

    /** Pushes a fresh frame. */
    method BeginFrame(fn: Proto, newbase: int, target: int, root: bool)
      requires Linked(vm) && 0 <= newbase + fn.size
      modifies this
      ensures Linked(vm) && vm == Entered(old(vm), Fresh(fn, newbase, target, root))
    {
      hide Flat;
      ghost var f := Fresh(fn, newbase, target, root);
      EnterFrame(newbase, newbase + fn.size);
      SetInnermost(calls[|calls| - 1].(fn := fn.entry, ip := fn.entry, target := target, root := root));
      assert calls == old(calls) + [calls[|calls| - 1]];
      CallsMatchEntered(old(calls), vm.frames, calls[|calls| - 1], f);
      FlatSnoc(vm.frames, f);
      vm := Entered(vm, f);
    }

    /** Suspends the frame just pushed in a new generator, leaves it and stores
        the generator in the caller's register `target`. */
    method CreateGenerator(fn: Proto, at: int, target: int)
      requires Linked(vm) && |vm.frames| >= 2 && -1 <= target
      requires 0 <= Caller(vm).base + target && Caller(vm).base + target < |stack|
      requires 0 <= Caller(vm).top && 0 <= base && fn.size >= 1 && top < |stack|
      requires Last(vm) == Fresh(fn, Caller(vm).base + at, target, false)
      modifies this
      ensures Linked(vm) && vm == GeneratorLeft(old(vm), fn, target)
    {
      hide CallsMatch, Flat, Packed, Suspend, Saved, Shift, Cleared, Put;
      ghost var start := vm;
      CallsDepth(calls, vm.frames);
      CallsTop(calls, vm.frames);
      UnloadedPacks(vm.frames);
      var g := |gens|;
      ghost var with := vm.(gens := vm.gens + [Running]);
      gens := gens + [GenObject(RunningPhase, [], calls[|calls| - 1], [])];
      var ok := GeneratorYield(g, fn.size);
      LeaveFrame();
      CallsMatchLeft(old(calls), vm.frames);
      SuspendedShape(with, g, fn.size);
      assert Put(stack, base + target, Generator(g)) == stack[base + target := Generator(g)] by {
        PutIn(stack, base + target, Generator(g));
      }
      stack := stack[base + target := Generator(g)];
      vm := GeneratorLeft(vm, fn, target);
    }
  }
}
