/** The target stack of the expression compiler: registers are taken for temporaries and given back
    in stack order, so every expression's registers and acts are those of `Expressions`. */
module Targets {
  import opened Bytecode
  import opened Peephole
  import opened Syntax
  import opened Expressions

  class TargetStack {
    /** The number of named registers. */
    const k: nat
    /** For every register taken, whether it carries a name. */
    var vlocals: seq<bool>
    var targets: seq<nat>
    var acts: seq<Item>

    ghost predicate Valid()
      reads this
    {
      |vlocals| >= k && forall i :: 0 <= i < |vlocals| ==> (vlocals[i] <==> i < k)
    }

    ghost function Taken(): nat
      reads this
    {
      |vlocals|
    }

    constructor (k: nat)
      ensures Valid() && this.k == k && Taken() == k && targets == [] && acts == []
    {
      this.k := k;
      vlocals := seq(k, _ => true);
      targets, acts := [], [];
    }

    method AllocStackPos() returns (n: nat)
      requires Valid()
      modifies `vlocals
      ensures Valid() && n == old(Taken()) && Taken() == n + 1
    {
      n := |vlocals|;
      vlocals := vlocals + [false];
    }

    /** Pushes register n, or a fresh one for -1. */
    method PushTarget(n: int) returns (r: nat)
      requires Valid() && n >= -1
      modifies `vlocals, `targets
      ensures Valid() && targets == old(targets) + [r]
      ensures n == -1 ==> r == old(Taken()) && Taken() == r + 1
      ensures n != -1 ==> r == n && Taken() == old(Taken())
    {
      if n != -1 {
        r := n;
      } else {
        r := AllocStackPos();
      }
      targets := targets + [r];
    }

    /** Pops the top target; a register without a name is given back with it. */
    method PopTarget() returns (r: nat)
      requires Valid() && targets != [] && targets[|targets| - 1] < Taken()
      modifies `vlocals, `targets
      ensures Valid() && r == old(targets)[|old(targets)| - 1] && targets == old(targets)[..|old(targets)| - 1]
      ensures Taken() == if r < k then old(Taken()) else old(Taken()) - 1
    {
      r := targets[|targets| - 1];
      if !vlocals[r] {
        vlocals := vlocals[..|vlocals| - 1];
      }
      targets := targets[..|targets| - 1];
    }

    method Add(i: Instr)
      modifies `acts
      ensures acts == old(acts) + Issue(i, k)
    {
      acts := acts + [Item.Emit(i, Range(0, k), 0)];
    }

    method Leaf(op: Op, n: int)
      requires Valid()
      modifies `vlocals, `targets, `acts
      ensures Valid() && targets == old(targets) + [old(Taken())] && Taken() == old(Taken()) + 1
      ensures acts == old(acts) + Issue(Make(op, old(Taken()), n, 0, 0), k)
    {
      var t := PushTarget(-1);
      Add(Make(op, t, n, 0, 0));
    }

    /** Pops the registers of operands a and then b, and takes a register for the result. */
    method Combine(ghost a: Expr, ghost b: Expr, ghost top: nat, ghost was: seq<nat>, ghost sure: bool) returns (t: nat, p1: nat, p2: nat)
      requires Valid() && k <= top <= 255 && Fitting(a, k, top, sure) && Fitting(b, k, Top(a, top), sure) && Top(a, top) <= 255
      requires targets == was + [Reg(a, top)] + [Reg(b, Top(a, top))] && Taken() == Top(b, Top(a, top))
      modifies `vlocals, `targets
      ensures Valid() && targets == was + [top] && Taken() == top + 1 && t == top && p1 == Reg(a, top) && p2 == Reg(b, Top(a, top))
    {
      RegIn(a, k, top, sure);
      RegIn(b, k, Top(a, top), sure);
      hide Fitting, Reg;
      p2 := PopTarget();
      assert targets == was + [Reg(a, top)];
      p1 := PopTarget();
      assert targets == was;
      t := PushTarget(-1);
    }

    /** Compiles two operands in order. */
    method Pair(e: Expr, a: Expr, b: Expr, ghost sure: bool)
      requires Valid() && k <= Taken() <= 255 && Fitting(a, k, Taken(), sure) && Fitting(b, k, Top(a, Taken()), sure)
      requires (e.Index? && a == e.obj && b == e.key) || (e.Bin? && a == e.left && b == e.right)
        || (e.SetSlot? && a == e.obj && b == e.key) || (e.Method? && a == e.obj && b == e.key)
      modifies `vlocals, `targets, `acts
      ensures Valid() && Top(a, old(Taken())) <= 255 && Top(b, Top(a, old(Taken()))) <= 255
      ensures targets == old(targets) + [Reg(a, old(Taken()))] + [Reg(b, Top(a, old(Taken())))] && Taken() == Top(b, Top(a, old(Taken())))
      ensures acts == old(acts) + (Acts(a, k, old(Taken())) + Acts(b, k, Top(a, old(Taken()))))
      decreases e, 0
    {
      ghost var top := Taken();
      RegIn(a, k, top, sure);
      Expression(a, sure);
      RegIn(b, k, Top(a, top), sure);
      hide Fitting, Acts, Reg;
      Expression(b, sure);
    }

    /** Compiles an expression: its acts are issued and its register stands on the target stack. */
    method Expression(e: Expr, ghost sure: bool)
      requires Valid() && k <= Taken() <= 255 && Fitting(e, k, Taken(), sure)
      modifies `vlocals, `targets, `acts
      ensures Valid() && targets == old(targets) + [Reg(e, old(Taken()))] && Taken() == Top(e, old(Taken()))
      ensures acts == old(acts) + Acts(e, k, old(Taken()))
      decreases e, 4
    {
      hide Reg, Make, Issue, Acts, Fitting, Valid;
      match e
      case Local(_) => Simple(e, sure);
      case GetOuter(_) => Simple(e, sure);
      case Lit(_, _) => Simple(e, sure);
      case Null => Simple(e, sure);
      case Index(_, _) => Operator(e, sure);
      case Bin(_, _, _, _) => Operator(e, sure);
      case AssignLocal(_, _) => Assign(e, sure);
      case Compound(_, _, _) => Assign(e, sure);
      case AssignOuter(_, _) => Assign(e, sure);
      case SetSlot(_, _, _, _) => Deref(e, sure);
      case Call(_, _) => Invoke(e, sure);
      case Method(_, _, _) => InvokeMethod(e, sure);
      case Comma(_, _) => CommaExpr(e, sure);
    }

    /** Variables, constants and captured variables. */
    method Simple(e: Expr, ghost sure: bool)
      requires (e.Local? || e.GetOuter? || e.Lit? || e.Null?) && Valid() && k <= Taken() <= 255 && Fitting(e, k, Taken(), sure)
      modifies `vlocals, `targets, `acts
      ensures Valid() && targets == old(targets) + [Reg(e, old(Taken()))] && Taken() == Top(e, old(Taken()))
      ensures acts == old(acts) + Acts(e, k, old(Taken()))
    {
      match e
      case Local(r) => var _ := PushTarget(r);
      case GetOuter(n) => Leaf(GETOUTER, n);
      case Lit(op, n) => Leaf(op, n);
      case Null => Leaf(LOADNULLS, 1);
    }

    /** Slot access and binary operators. */
    method Operator(e: Expr, ghost sure: bool)
      requires (e.Index? || e.Bin?) && Valid() && k <= Taken() <= 255 && Fitting(e, k, Taken(), sure)
      modifies `vlocals, `targets, `acts
      ensures Valid() && targets == old(targets) + [Reg(e, old(Taken()))] && Taken() == Top(e, old(Taken()))
      ensures acts == old(acts) + Acts(e, k, old(Taken()))
      decreases e, 3
    {
      ghost var top, was, before := Taken(), targets, acts;
      var a, b := if e.Index? then e.obj else e.left, if e.Index? then e.key else e.right;
      SplitActs(e, k, top);
      assert Fitting(a, k, top, sure) && Fitting(b, k, Top(a, top), sure) && Reg(e, top) == top && Top(e, top) == top + 1;
      Pair(e, a, b, sure);
      var t, p1, p2 := Combine(a, b, top, was, sure);
      var i := if e.Index? then Make(GET, t, p1, p2, 0) else Make(e.op, t, p2, p1, e.kind);
      assert Front(e, k, top) == Acts(a, k, top) + Acts(b, k, Top(a, top)) && i == Final(e, top);
      hide Fitting, Acts, Make, Front, Final, Issue;
      Add(i);
      JoinLast(before, Front(e, k, top), Issue(i, k));
    }

    /** Assignments: to a variable, in place, and to a captured variable. */
    method Assign(e: Expr, ghost sure: bool)
      requires (e.AssignLocal? || e.Compound? || e.AssignOuter?) && Valid() && k <= Taken() <= 255 && Fitting(e, k, Taken(), sure)
      modifies `vlocals, `targets, `acts
      ensures Valid() && targets == old(targets) + [Reg(e, old(Taken()))] && Taken() == Top(e, old(Taken()))
      ensures acts == old(acts) + Acts(e, k, old(Taken()))
      decreases e, 3
    {
      ghost var top, was, before := Taken(), targets, acts;
      AssignActs(e, k, top);
      RegIn(e.value, k, top, sure);
      if !e.AssignOuter? { var _ := PushTarget(e.x); }
      ghost var mid := targets;
      Expression(e.value, sure);
      hide Acts, Reg;
      var src := PopTarget();
      assert targets == mid;
      JoinThird(before, Acts(e.value, k, top), Assigning(e, k, top, src));
      match e
      case AssignLocal(x, _) => Add(Make(MOVE, x, src, 0, 0));
      case Compound(op, x, _) =>
        InPlace(op, x, src, was);
      case AssignOuter(n, _) =>
        var dst := PushTarget(-1);
        Add(Make(SETOUTER, dst, n, src, 0));
    }

    method InPlace(op: Op, x: nat, src: nat, ghost was: seq<nat>)
      requires Valid() && x < k && targets == was + [x]
      modifies `vlocals, `targets, `acts
      ensures Valid() && targets == was + [x] && Taken() == old(Taken())
      ensures acts == old(acts) + (Issue(Make(op, x, src, x, 0), k) + [Snooze])
    {
      var p1 := PopTarget();
      assert targets == was;
      var _ := PushTarget(p1);
      Add(Make(op, p1, src, p1, 0));
      acts := acts + [Snooze];
    }

    /** A slot is assigned or created. */
    method Deref(e: Expr, ghost sure: bool)
      requires e.SetSlot? && Valid() && k <= Taken() <= 255 && Fitting(e, k, Taken(), sure)
      modifies `vlocals, `targets, `acts
      ensures Valid() && targets == old(targets) + [Reg(e, old(Taken()))] && Taken() == Top(e, old(Taken()))
      ensures acts == old(acts) + Acts(e, k, old(Taken()))
      decreases e, 3
    {
      ghost var top, was, before := Taken(), targets, acts;
      ghost var t1 := Top(e.obj, top);
      ghost var t2 := Top(e.key, t1);
      SplitActs(e, k, top);
      assert Fitting(e.obj, k, top, sure) && Fitting(e.key, k, t1, sure) && Fitting(e.value, k, t2, sure);
      Pair(e, e.obj, e.key, sure);
      RegIn(e.value, k, t2, sure);
      ghost var mid := targets;
      Expression(e.value, sure);
      assert Reg(e, top) == top && Top(e, top) == top + 1;
      assert Front(e, k, top) == Acts(e.obj, k, top) + Acts(e.key, k, t1) + Acts(e.value, k, t2);
      hide Fitting, Acts, Front, Issue;
      var val := PopTarget();
      assert targets == mid;
      var t, src, key := Combine(e.obj, e.key, top, was, sure);
      assert Make(e.op, t, src, key, val) == Final(e, top);
      hide Make, Final, Reg;
      Add(Make(e.op, t, src, key, val));
      JoinThird(before, Acts(e.obj, k, top) + Acts(e.key, k, t1), Acts(e.value, k, t2));
      JoinLast(before, Front(e, k, top), Issue(Final(e, top), k));
    }

    method CommaExpr(e: Expr, ghost sure: bool)
      requires e.Comma? && Valid() && k <= Taken() <= 255 && Fitting(e, k, Taken(), sure)
      modifies `vlocals, `targets, `acts
      ensures Valid() && targets == old(targets) + [Reg(e, old(Taken()))] && Taken() == Top(e, old(Taken()))
      ensures acts == old(acts) + Acts(e, k, old(Taken()))
      decreases e, 3
    {
      ghost var top, was, before := Taken(), targets, acts;
      RegIn(e.first, k, top, sure);
      Expression(e.first, sure);
      var _ := PopTarget();
      assert targets == was;
      Expression(e.second, sure);
      assert before + Acts(e.first, k, top) + Acts(e.second, k, top) == before + (Acts(e.first, k, top) + Acts(e.second, k, top));
    }

    /** The arguments of a call, each in a register of its own. */
    method CallArgs(args: Args, ghost sure: bool)
      requires Valid() && k <= Taken() <= 255 && ArgsFit(args, k, Taken(), sure)
      modifies `vlocals, `targets, `acts
      ensures Valid() && Taken() == old(Taken()) + Count(args) && targets == old(targets) + Run(old(Taken()), Count(args))
      ensures acts == old(acts) + ArgActs(args, k, old(Taken()))
      decreases args, 0
    {
      ghost var top, was, before := Taken(), targets, acts;
      match args
      case NoArgs =>
        assert before + [] == before && was + [] == was;
      case More(a, rest) =>
        RegIn(a, k, top, sure);
        Expression(a, sure);
        hide Fitting, Acts, Reg, Make, Issue;
        MoveIfCurrentTargetIsLocal(a, top, was, sure);
        assert acts == before + ArgAct(a, k, top);
        hide ArgAct;
        CallArgs(rest, sure);
        RunMore(was, top, Count(rest));
        JoinThird(before, ArgAct(a, k, top), ArgActs(rest, k, top + 1));
    }

    method MoveIfCurrentTargetIsLocal(ghost a: Expr, ghost top: nat, ghost was: seq<nat>, ghost sure: bool)
      requires Valid() && k <= top <= 255 && Fitting(a, k, top, sure) && targets == was + [Reg(a, top)] && Taken() == Top(a, top)
      modifies `vlocals, `targets, `acts
      ensures Valid() && targets == was + [top] && Taken() == top + 1
      ensures acts == old(acts) + if InLocal(a) then Issue(Make(MOVE, top, Reg(a, top), 0, 0), k) else []
    {
      RegIn(a, k, top, sure);
      hide Fitting, Reg;
      var trg := targets[|targets| - 1];
      if vlocals[trg] {
        trg := PopTarget();
        assert targets == was;
        var t := PushTarget(-1);
        Add(Make(MOVE, t, trg, 0, 0));
      }
    }

    /** Gives the arguments' registers back. */
    method PopArgs(n: nat, ghost top: nat, ghost was: seq<nat>)
      requires Valid() && k <= top && targets == was + Run(top, n) && Taken() == top + n
      modifies `vlocals, `targets
      ensures Valid() && targets == was && Taken() == top
    {
      var i := n;
      while i > 0
        invariant 0 <= i <= n && Valid() && targets == was + Run(top, i) && Taken() == top + i
      {
        assert targets[|targets| - 1] == top + i - 1;
        var _ := PopTarget();
        i := i - 1;
        assert targets == was + Run(top, i);
      }
      assert was + Run(top, 0) == was;
    }

    /** Gives the arguments, `this` and the closure back, and calls. */
    method EndCall(n: nat, ghost top: nat, ghost f: nat, ghost t: nat, ghost was: seq<nat>)
      requires Valid() && k <= top && targets == was + [f] + [t] + Run(t + 1, n) && Taken() == t + 1 + n
      requires (f < k && t == top) || (f == top && t == top + 1)
      modifies `vlocals, `targets, `acts
      ensures Valid() && targets == was + [top] && Taken() == top + 1 && acts == old(acts) + Issue(Make(CALL, top, f, t, n + 1), k)
    {
      PopArgs(n, t + 1, was + [f] + [t]);
      assert targets[|targets| - 1] == t;
      var stackbase := PopTarget();
      assert targets == was + [f];
      var closure := PopTarget();
      assert targets == was;
      var r := PushTarget(-1);
      Add(Make(CALL, r, closure, stackbase, n + 1));
    }

    method Invoke(e: Expr, ghost sure: bool)
      requires e.Call? && Valid() && k <= Taken() <= 255 && Fitting(e, k, Taken(), sure)
      modifies `vlocals, `targets, `acts
      ensures Valid() && targets == old(targets) + [Reg(e, old(Taken()))] && Taken() == Top(e, old(Taken()))
      ensures acts == old(acts) + Acts(e, k, old(Taken()))
      decreases e, 3
    {
      ghost var top, was, before := Taken(), targets, acts;
      ghost var t := Top(e.fn, top);
      RegIn(e.fn, k, top, sure);
      ArgsRoom(e.args, k, t + 1, sure);
      CallActs(e, k, top);
      assert Reg(e, top) == top && Top(e, top) == top + 1;
      assert Fitting(e.fn, k, top, sure) && ArgsFit(e.args, k, t + 1, sure);
      hide Fitting, ArgsFit, Acts, ArgActs, Reg, Make, Issue;
      Expression(e.fn, sure);
      var this' := PushTarget(-1);
      Add(Make(MOVE, this', 0, 0, 0));
      CallArgs(e.args, sure);
      var n := Count(e.args);
      EndCall(n, top, Reg(e.fn, top), t, was);
      Assoc4(before, Acts(e.fn, k, top), Issue(Make(MOVE, t, 0, 0, 0), k), ArgActs(e.args, k, t + 1),
             Issue(Make(CALL, top, Reg(e.fn, top), t, n + 1), k));
    }

    /** Finds the closure and `this` of a method call. */
    method Lookup(e: Expr, ghost sure: bool)
      requires e.Method? && Valid() && k <= Taken() <= 255 && Fitting(e, k, Taken(), sure)
      modifies `vlocals, `targets, `acts
      ensures Valid() && targets == old(targets) + [old(Taken())] + [old(Taken()) + 1] && Taken() == old(Taken()) + 2
      ensures var top := old(Taken());
        var t := Top(e.obj, top);
        acts == old(acts) + (Acts(e.obj, k, top) + Acts(e.key, k, t)
                             + Issue(Make(PREPCALL, top, Reg(e.key, t), Reg(e.obj, top), top + 1), k))
      decreases e, 2
    {
      ghost var top, was, before := Taken(), targets, acts;
      hide Acts, Make, Issue;
      Pair(e, e.obj, e.key, sure);
      var closure, table, key := Combine(e.obj, e.key, top, was, sure);
      var ttarget := PushTarget(-1);
      Add(Make(PREPCALL, closure, key, table, ttarget));
      JoinThird(before, Acts(e.obj, k, top) + Acts(e.key, k, Top(e.obj, top)), Issue(Make(PREPCALL, closure, key, table, ttarget), k));
    }

    method InvokeMethod(e: Expr, ghost sure: bool)
      requires e.Method? && Valid() && k <= Taken() <= 255 && Fitting(e, k, Taken(), sure)
      modifies `vlocals, `targets, `acts
      ensures Valid() && targets == old(targets) + [Reg(e, old(Taken()))] && Taken() == Top(e, old(Taken()))
      ensures acts == old(acts) + Acts(e, k, old(Taken()))
      decreases e, 3
    {
      ghost var top, was, before := Taken(), targets, acts;
      ghost var t := Top(e.obj, top);
      ArgsRoom(e.args, k, top + 2, sure);
      MethodActs(e, k, top);
      assert Reg(e, top) == top && Top(e, top) == top + 1 && ArgsFit(e.args, k, top + 2, sure);
      hide Fitting, ArgsFit, Acts, ArgActs, Reg, Make, Issue;
      Lookup(e, sure);
      ghost var found := Acts(e.obj, k, top) + Acts(e.key, k, t) + Issue(Make(PREPCALL, top, Reg(e.key, t), Reg(e.obj, top), top + 1), k);
      CallArgs(e.args, sure);
      var n := Count(e.args);
      EndCall(n, top, top, top + 1, was);
      Assoc3(before, found, ArgActs(e.args, k, top + 2), Issue(Make(CALL, top, top, top + 1, n + 1), k));
    }
  }

  lemma JoinLast(s: seq<Item>, f: seq<Item>, p: seq<Item>)
    ensures s + f + p == s + (f + p + [])
  {
    assert f + p + [] == f + p;
    JoinThird(s, f, p);
  }

  lemma JoinThird(s: seq<Item>, a: seq<Item>, b: seq<Item>)
    ensures s + (a + b) == s + a + b
  {
  }

  lemma RunMore(was: seq<nat>, top: nat, n: nat)
    ensures was + [top] + Run(top + 1, n) == was + Run(top, n + 1)
  {
  }

  /** n registers from `top` on. */
  function Run(top: nat, n: nat): (r: seq<nat>)
    ensures |r| == n
  {
    seq(n, i => top + i)
  }
}
