/** The statement compiler over expressions: every program whose registers fit is laid out by the
    code generator within the emission discipline, except where a comma hides a value
    behind a comparison or a call; so it is compiled right. */
module Statements {
  import opened Common
  import opened Bytecode
  import opened Peephole
  import opened Codegen
  import opened Simulation
  import opened Syntax
  import opened Expressions
  import opened Logical
  import opened Watch
  import Compiler
  import FuncState

  // ----- conditions, returns and expression statements -----

  lemma StraightJoin(a: seq<Item>, b: seq<Item>)
    requires StraightItems(a) && StraightItems(b)
    ensures StraightItems(a + b)
  {
  }

  lemma {:induction false} StraightActs(e: Expr, k: nat, top: nat, sure: bool)
    requires Fitting(e, k, top, sure)
    ensures StraightItems(Acts(e, k, top))
    decreases e, 2
  {
    if e.Comma? {
      StraightActs(e.first, k, top, sure);
      StraightActs(e.second, k, top, sure);
      StraightJoin(Acts(e.first, k, top), Acts(e.second, k, top));
    } else if !e.Local? {
      SplitActs(e, k, top);
      FinalStraight(e, k, top, sure);
      StraightFront(e, k, top, sure);
      hide Acts, Front, Final, StraightItems;
      var f, p := Front(e, k, top), Issue(Final(e, top), k);
      StraightJoin(f, p);
      StraightJoin(f + p, if e.Compound? then [Snooze] else []) by { SnoozeStraight(e.Compound?); }
    }
  }

  lemma SnoozeStraight(c: bool)
    ensures StraightItems(if c then [Snooze] else [])
  {
  }

  lemma FinalStraight(e: Expr, k: nat, top: nat, sure: bool)
    requires !e.Local? && !e.Comma? && Fitting(e, k, top, sure)
    ensures StraightItems(Issue(Final(e, top), k))
  {
    hide ArgsFit;
  }

  lemma {:induction false} StraightFront(e: Expr, k: nat, top: nat, sure: bool)
    requires !e.Local? && !e.Comma? && Fitting(e, k, top, sure)
    ensures StraightItems(Front(e, k, top))
    decreases e, 1
  {
    hide Acts, ArgActs, StraightItems, Issue, Make;
    match e
    case Index(o, key) => StraightPair(e, o, key, k, top, sure);
    case Bin(_, _, l, r) => StraightPair(e, l, r, k, top, sure);
    case AssignLocal(_, v) => StraightActs(v, k, top, sure);
    case Compound(_, _, v) => StraightActs(v, k, top, sure);
    case AssignOuter(_, v) => StraightActs(v, k, top, sure);
    case SetSlot(_, o, key, v) =>
      StraightPair(e, o, key, k, top, sure);
      StraightActs(v, k, Top(key, Top(o, top)), sure);
      StraightJoin(Acts(o, k, top) + Acts(key, k, Top(o, top)), Acts(v, k, Top(key, Top(o, top))));
    case Call(f, args) =>
      var m := Make(MOVE, Top(f, top), 0, 0, 0);
      StraightActs(f, k, top, sure);
      IssueStraight(m, k) by { MakeOp(MOVE, Top(f, top), 0, 0, 0); }
      StraightArgs(args, k, Top(f, top) + 1, sure);
      StraightJoin(Acts(f, k, top), Issue(m, k));
      StraightJoin(Acts(f, k, top) + Issue(m, k), ArgActs(args, k, Top(f, top) + 1));
    case Method(o, key, args) =>
      var t := Top(o, top);
      var m := Make(PREPCALL, top, Reg(key, t), Reg(o, top), top + 1);
      StraightPair(e, o, key, k, top, sure);
      IssueStraight(m, k) by { MakeOp(PREPCALL, top, Reg(key, t), Reg(o, top), top + 1); }
      StraightArgs(args, k, top + 2, sure);
      StraightJoin(Acts(o, k, top) + Acts(key, k, t), Issue(m, k));
      StraightJoin(Acts(o, k, top) + Acts(key, k, t) + Issue(m, k), ArgActs(args, k, top + 2));
    case _ => SnoozeStraight(false);
  }

  lemma MakeOp(op: Op, a0: int, a1: int, a2: int, a3: int)
    ensures Make(op, a0, a1, a2, a3).op == op
  {
  }

  lemma IssueStraight(i: Instr, k: nat)
    requires !IsJump(i.op)
    ensures StraightItems(Issue(i, k))
  {
  }

  lemma {:induction false} StraightPair(e: Expr, a: Expr, b: Expr, k: nat, top: nat, sure: bool)
    requires Fitting(a, k, top, sure) && Fitting(b, k, Top(a, top), sure)
    requires (e.Index? && a == e.obj && b == e.key) || (e.Bin? && a == e.left && b == e.right)
      || (e.SetSlot? && a == e.obj && b == e.key) || (e.Method? && a == e.obj && b == e.key)
    ensures StraightItems(Acts(a, k, top) + Acts(b, k, Top(a, top)))
    decreases e, 0
  {
    StraightActs(a, k, top, sure);
    StraightActs(b, k, Top(a, top), sure);
    StraightJoin(Acts(a, k, top), Acts(b, k, Top(a, top)));
  }

  lemma {:induction false} StraightArgs(args: Args, k: nat, top: nat, sure: bool)
    requires ArgsFit(args, k, top, sure)
    ensures StraightItems(ArgActs(args, k, top))
    decreases args, 0
  {
    hide Acts;
    if args.More? {
      StraightActs(args.arg, k, top, sure);
      StraightArgs(args.rest, k, top + 1, sure);
    }
  }

  /** Nothing emitted yet. */
  lemma Fresh(z: Start, k: nat)
    requires Range(0, k) <= z.A && z.pact.keep <= Range(0, k)
    ensures InOrder(z, [], k, {})
  {
  }

  /** An expression compiled from scratch: its value and all variables agree. */
  lemma WholeReady(z: Start, e: Expr, k: nat)
    requires Range(0, k) <= z.A && z.pact.keep <= Range(0, k) && 1 <= k <= 255 && Fitting(e, k, k, z.pact.sure)
    ensures var F := FlowFrom(z, Acts(e, k, k));
      F.Some? && Range(0, k) <= F.value && Reg(e, k) as int in F.value && Clean(CodeFrom(z, Acts(e, k, k)), k, z.pact.sure)
    ensures Reg(e, k) < 255 && if InLocal(e) then Reg(e, k) < k else Reg(e, k) == k
  {
    hide Acts, Fitting, FlowFrom, Clean, CodeFrom;
    Fresh(z, k);
    ExprReady(z, [], e, k, k, {});
    StackedMore(e, k, k, {}, z.pact.sure);
    assert [] + Acts(e, k, k) == Acts(e, k, k) && {} + Own(e, k) == Own(e, k);
  }

  /** What the optimizer sees behind an expression compiled from scratch. */
  ghost predicate Seen(b: Buf, e: Expr, k: nat, op: Op) {
    if Silent(e) then b.code == [] && InLocal(e) && !Dangles(e, op)
    else if !Ends(e, op) then ShowsNo(b, op) && !Dangles(e, op)
    else Shows(b, op, k) && (op == CALL ==> |b.code| >= 2) && (Dangles(e, op) <==> InLocal(e)) && (InLocal(e) || Reg(e, k) == k)
  }

  lemma WholeEnds(z: Start, e: Expr, k: nat, op: Op)
    requires Fitting(e, k, k, z.pact.sure) && k <= 255 && op in {CMP, CALL}
    ensures Seen(CodeFrom(z, Acts(e, k, k)), e, k, op)
  {
    if Silent(e) {
      SilentActs(e, k, k);
      SilentEnds(e, op);
    } else {
      hide Acts, CodeFrom, Fitting, Ends, Dangles, InLocal, Reg, Shows, ShowsNo;
      EndsLast(z, [], e, k, k, z.pact.sure, op);
      DanglesExactly(e, k, op);
      assert [] + Acts(e, k, k) == Acts(e, k, k);
    }
  }

  lemma {:induction false} SilentEnds(e: Expr, op: Op)
    requires Silent(e)
    ensures !Ends(e, op) && !Dangles(e, op)
    decreases e
  {
    if e.Comma? {
      SilentEnds(e.first, op);
      SilentEnds(e.second, op);
    }
  }

  /** A condition keeps the discipline exactly when it does not dangle behind a comparison. */
  lemma TestExactly(e: Expr, k: nat, opt: bool, parent: bool, A: set<int>, pact: Pact)
    requires Range(0, k) <= A && pact.keep <= Range(0, k) && 1 <= k <= 255 && Fitting(e, k, k, pact.sure)
    ensures var F := FlowTest(Acts(e, k, k), Cast(Reg(e, k)), opt, parent, A, pact);
      && (F.Some? <==> !Dangles(e, CMP))
      && (F.Some? ==> Range(0, k) <= F.value)
  {
    hide Acts, Fitting, FlowItems, FlowItem, FlowFrom, CodeFrom, Clean, Seen, Dangles, InLocal, Reg, StraightItems, Cast, Range;
    var z := Start(opt, parent, A, pact);
    var s, jz := Acts(e, k, k), Instr(JZ, Cast(Reg(e, k)), 0, 0, 0);
    StraightActs(e, k, k, pact.sure);
    WholeReady(z, e, k);
    WholeEnds(z, e, k, CMP);
    SameByte(Reg(e, k));
    Snoc(z, s, Emit(jz, {}, 0));
    FlowIs(z, s + [Emit(jz, {}, 0)]);
    JzSeen(CodeFrom(z, s), e, jz, parent, FlowFrom(z, s).value, pact, k);
  }

  lemma FlowIs(z: Start, s: seq<Item>)
    ensures FlowFrom(z, s) == FlowItems(s, z.opt, z.parent, z.A, z.pact)
  {
  }

  lemma SameByte(r: nat)
    requires r < 256
    ensures Cast(r) == r
  {
  }

  lemma JzSeen(b: Buf, e: Expr, jz: Instr, parent: bool, A: set<int>, pact: Pact, k: nat)
    requires Seen(b, e, k, CMP) && jz.op == JZ && jz.a0 as int == Reg(e, k) && (if InLocal(e) then Reg(e, k) < k else Reg(e, k) == k)
    requires jz.a0 as int in A && Range(0, k) <= A && pact.keep <= Range(0, k) && Clean(b, k, pact.sure)
    ensures var F := FlowItem(b, Emit(jz, {}, 0), parent, A, pact);
      && (F.Some? <==> !Dangles(e, CMP)) && (F.Some? ==> Range(0, k) <= F.value)
  {
    hide Silent, Ends, Dangles, InLocal, Reg, FlowItem, Clean;
    JzExactly(b, jz, parent, A, pact, k);
  }

  lemma JzExactly(b: Buf, jz: Instr, parent: bool, A: set<int>, pact: Pact, k: nat)
    requires jz.op == JZ && jz.a0 as int in A && Range(0, k) <= A && pact.keep <= Range(0, k) && Clean(b, k, pact.sure)
    ensures var F := FlowItem(b, Emit(jz, {}, 0), parent, A, pact);
      && (F.Some? <==> !(b.opt && b.code != [] && Last(b.code).op == CMP && Last(b.code).a0 != jz.a0))
      && (F.Some? ==> Range(0, k) <= F.value)
  {
  }

  /** A return keeps the discipline exactly when, in a nested function, it does not dangle behind a call. */
  lemma ReturnExactly(e: Expr, k: nat, opt: bool, parent: bool, A: set<int>, pact: Pact)
    requires Range(0, k) <= A && pact.keep <= Range(0, k) && 1 <= k <= 255 && Fitting(e, k, k, pact.sure)
    ensures var F := FlowLine(Acts(e, k, k) + Issue(Make(RETURN, 1, Reg(e, k), k, 0), k), opt, parent, A, pact);
      && (F.Some? <==> !(parent && Dangles(e, CALL)))
      && (F.Some? ==> Range(0, k) <= F.value)
  {
    hide Acts, Fitting, FlowItems, FlowItem, FlowFrom, CodeFrom, Clean, Seen, Dangles, InLocal, Reg, StraightItems, Range, Make;
    var z := Start(opt, parent, A, pact);
    var s, ret := Acts(e, k, k), Make(RETURN, 1, Reg(e, k), k, 0);
    ReturnMade(Reg(e, k), k);
    StraightActs(e, k, k, pact.sure);
    IssueStraight(ret, k);
    StraightJoin(s, Issue(ret, k));
    WholeReady(z, e, k);
    WholeEnds(z, e, k, CALL);
    Snoc(z, s, Emit(ret, Range(0, k), 0));
    FlowIs(z, s + Issue(ret, k));
    RetSeen(CodeFrom(z, s), e, ret, Range(0, k), parent, FlowFrom(z, s).value, pact, k);
  }

  lemma ReturnMade(r: nat, k: nat)
    ensures var ret := Make(RETURN, 1, r, k, 0); ret.op == RETURN && ret.a0 == 1 && ret.a1 == r
  {
  }

  lemma RetSeen(b: Buf, e: Expr, ret: Instr, locals: set<int>, parent: bool, A: set<int>, pact: Pact, k: nat)
    requires Seen(b, e, k, CALL) && ret.op == RETURN && ret.a0 == 1 && ret.a1 == Reg(e, k)
    requires if InLocal(e) then Reg(e, k) < k else Reg(e, k) == k
    requires ret.a1 in A && Range(0, k) <= A && pact.keep <= Range(0, k) && Clean(b, k, pact.sure)
    ensures var F := FlowItem(b, Emit(ret, locals, 0), parent, A, pact);
      && (F.Some? <==> !(parent && Dangles(e, CALL))) && (F.Some? ==> Range(0, k) <= F.value)
  {
    hide Silent, Ends, Dangles, InLocal, Reg, FlowItem, Clean;
    RetExactly(b, ret, locals, parent, A, pact, k);
  }

  lemma RetExactly(b: Buf, ret: Instr, locals: set<int>, parent: bool, A: set<int>, pact: Pact, k: nat)
    requires ret.op == RETURN && ret.a0 == 1 && ret.a1 in A && Range(0, k) <= A && pact.keep <= Range(0, k) && Clean(b, k, pact.sure)
    requires b.opt && b.code != [] && Last(b.code).op == CALL ==> |b.code| >= 2
    ensures var F := FlowItem(b, Emit(ret, locals, 0), parent, A, pact);
      && (F.Some? <==> !(parent && b.opt && b.code != [] && Last(b.code).op == CALL && Last(b.code).a0 as int != ret.a1))
      && (F.Some? ==> Range(0, k) <= F.value)
  {
  }

  /** An expression as a statement always keeps the discipline: its value is discarded. */
  lemma DiscardReady(e: Expr, k: nat, opt: bool, parent: bool, A: set<int>, pact: Pact)
    requires Range(0, k) <= A && pact.keep <= Range(0, k) && 1 <= k <= 255 && Fitting(e, k, k, pact.sure)
    ensures var F := FlowLine(Acts(e, k, k) + [Discard(Reg(e, k))], opt, parent, A, pact);
      F.Some? && Range(0, k) <= F.value
  {
    var z := Start(opt, parent, A, pact);
    var s := Acts(e, k, k);
    hide Acts, Fitting, FlowItems, FlowItem, CodeFrom, Clean, Reg, StraightItems;
    StraightActs(e, k, k, pact.sure);
    assert StraightItems([Discard(Reg(e, k))]) by { DiscardStraight(Reg(e, k)); }
    StraightJoin(s, [Discard(Reg(e, k))]);
    WholeReady(z, e, k);
    Snoc(z, s, Discard(Reg(e, k)));
    DiscardKeeps(CodeFrom(z, s), Reg(e, k), parent, FlowFrom(z, s).value, pact, k);
  }

  lemma DiscardStraight(target: int)
    ensures StraightItems([Discard(target)])
  {
  }

  lemma DiscardKeeps(b: Buf, target: nat, parent: bool, A: set<int>, pact: Pact, k: nat)
    requires Range(0, k) <= A && pact.keep <= Range(0, k) && Clean(b, k, pact.sure)
    ensures var F := FlowItem(b, Discard(target), parent, A, pact);
      F.Some? && Range(0, k) <= F.value
  {
  }

  // ----- declarations -----

  /** A local variable declared with a value: a temporary becomes the variable, a variable is copied. */
  function DeclareActs(e: Expr, k: nat): seq<Item> {
    Acts(e, k, k) + if InLocal(e) then [Snooze] + Issue(Make(MOVE, k, Reg(e, k), 0, 0), k) else []
  }

  lemma DeclareReady(e: Expr, k: nat, opt: bool, parent: bool, A: set<int>, pact: Pact)
    requires Range(0, k) <= A && pact.keep <= Range(0, k) && 1 <= k < 255 && Fitting(e, k, k, pact.sure)
    ensures var F := FlowLine(DeclareActs(e, k), opt, parent, A, pact);
      F.Some? && Range(0, k + 1) <= F.value
  {
    hide Acts, Fitting, FlowItems, FlowItem, FlowFrom, CodeFrom, Clean, Reg, StraightItems, Make, InLocal;
    var z := Start(opt, parent, A, pact);
    var s, i := Acts(e, k, k), Make(MOVE, k, Reg(e, k), 0, 0);
    CopyMade(Reg(e, k), k);
    StraightActs(e, k, k, pact.sure);
    WholeReady(z, e, k);
    FlowIs(z, DeclareActs(e, k));
    if InLocal(e) {
      SnoozeStraight(true);
      IssueStraight(i, k);
      StraightJoin([Snooze], Issue(i, k));
      StraightJoin(s, [Snooze] + Issue(i, k));
      CopyReady(z, s, i, k);
      assert s + ([Snooze] + Issue(i, k)) == s + [Snooze] + Issue(i, k);
    } else {
      assert s + [] == s;
    }
  }

  lemma CopyMade(r: nat, k: nat)
    requires k < 256
    ensures Make(MOVE, k, r, 0, 0) == Instr(MOVE, k, r, 0, 0)
  {
  }

  lemma CopyReady(z: Start, s: seq<Item>, i: Instr, k: nat)
    requires FlowFrom(z, s).Some? && Range(0, k) <= FlowFrom(z, s).value && z.pact.keep <= Range(0, k) && i.op == MOVE
    requires i.a0 as int == k && 0 <= i.a1 < k
    ensures FlowFrom(z, s + [Snooze] + Issue(i, k)).Some? && Range(0, k + 1) <= FlowFrom(z, s + [Snooze] + Issue(i, k)).value
  {
    hide FlowItems, Fuse;
    Snoc(z, s, Snooze);
    Snoc(z, s + [Snooze], Emit(i, Range(0, k), 0));
  }

  // ----- logical operators -----

  function CondOwn(c: Cond, top: nat): set<int> { if c.Leaf? then Own(c.e, top) else {top as int} }

  /** A new piece of code, with temporaries that agree. */
  lemma FreshWith(z: Start, k: nat, live: set<int>)
    requires Range(0, k) + live <= z.A && z.pact.keep <= Range(0, k)
    ensures InOrder(z, [], k, live)
  {
  }

  lemma CopyInOrder(z: Start, k: nat, top: nat, r: nat, live: set<int>, live': set<int>)
    requires Range(0, k) + live' <= z.A && z.pact.keep <= Range(0, k) && k <= top < 255 && r < 256
    requires r as int in Range(0, k) + live' && live <= live' && (r < k || r == top || r as int !in live)
    ensures StraightItems(Copy(top, r, k)) && InOrder(z, Copy(top, r, k), k, live + {top as int})
  {
    hide InOrder;
    FreshWith(z, k, live');
    if r == top {
      assert live + {top as int} <= Range(0, k) + live';
      FreshWith(z, k, live + {top as int});
    } else {
      var i := Make(MOVE, top, r, 0, 0);
      assert i.a0 as int == top && i.a1 == r && i.op == MOVE;
      PutMove(z, [], k, live', i, live + {top as int});
      assert [] + Issue(i, k) == Issue(i, k);
    }
  }

  lemma CopyFlows(z: Start, k: nat, top: nat, r: nat, live: set<int>, live': set<int>)
    requires Range(0, k) + live' <= z.A && z.pact.keep <= Range(0, k) && k <= top < 255 && r < 256
    requires r as int in Range(0, k) + live' && live <= live' && (r < k || r == top || r as int !in live)
    ensures var F := FlowLine(Copy(top, r, k), z.opt, z.parent, z.A, z.pact);
      F.Some? && Range(0, k) + live + {top as int} <= F.value
  {
    hide FlowItems, Copy, Clean, CodeFrom;
    CopyInOrder(z, k, top, r, live, live');
  }

  lemma CondRegIn(c: Cond, k: nat, top: nat, sure: bool)
    requires CondFits(c, k, top, sure) && k <= top <= 255
    ensures CondReg(c, top) < k || (CondReg(c, top) == top && CondOwn(c, top) == {top as int})
    ensures CondOwn(c, top) <= {top as int} && CondReg(c, top) as int in Range(0, k) + CondOwn(c, top)
  {
    if c.Leaf? { RegIn(c.e, k, top, sure); }
  }

  /** From a disciplined stream, the code of any condition keeps the discipline, and its value, all variables and all
      temporaries that were live agree behind it. */
  lemma {:induction false} CondReady(z: Start, before: seq<Item>, c: Cond, k: nat, top: nat, live: set<int>, first: bool, lim: Option<nat>)
    requires InOrder(z, before, k, live) && StraightItems(before) && Stacked(k, top, live) && CondFits(c, k, top, z.pact.sure)
    ensures var F := Flow(CondCode(c, k, top, before), z.opt, z.parent, first, z.A, z.pact, lim);
      F.Some? && Range(0, k) + live + CondOwn(c, top) <= F.value
    decreases c, 2
  {
    match c
    case Leaf(e) =>
      hide Acts, Fitting, FlowItems, Clean, CodeFrom;
      ExprReady(z, before, e, k, top, live);
      StraightActs(e, k, top, z.pact.sure);
      StraightJoin(before, Acts(e, k, top));
    case And(l, r) => JunctReady(z, before, c, l, r, true, k, top, live, first, lim);
    case Or(l, r) => JunctReady(z, before, c, l, r, false, k, top, live, first, lim);
  }

  lemma {:induction false} JunctReady(z: Start, before: seq<Item>, c: Cond, l: Cond, r: Cond, isAnd: bool, k: nat, top: nat,
        live: set<int>, first: bool, lim: Option<nat>)
    requires c == if isAnd then And(l, r) else Or(l, r)
    requires InOrder(z, before, k, live) && StraightItems(before) && Stacked(k, top, live) && CondFits(c, k, top, z.pact.sure)
    ensures var F := Flow(CondCode(c, k, top, before), z.opt, z.parent, first, z.A, z.pact, lim);
      F.Some? && Range(0, k) + live + CondOwn(c, top) <= F.value
    decreases c, 1
  {
    hide InOrder, CondFits, Copy, FlowLine, StraightItems, Gen, Second, CondReg, Cast;
    FitsParts(c, l, r, k, top, z.pact.sure);
    KeepIs(z, before, k, live);
    CondReady(z, before, l, k, top, live, first, lim);
    CondRegIn(l, k, top, z.pact.sure);
    SameByte(CondReg(l, top));
    SameByte(top);
    var X := Flow(CondCode(l, k, top, before), z.opt, z.parent, first, z.A, z.pact, lim).value;
    SecondReady(z, c, l, r, k, top, live, X, lim);
  }

  lemma FitsParts(c: Cond, l: Cond, r: Cond, k: nat, top: nat, sure: bool)
    requires (c == And(l, r) || c == Or(l, r)) && CondFits(c, k, top, sure)
    ensures top < 255 && CondFits(l, k, top, sure) && CondFits(r, k, top + 1, sure)
  {
  }

  lemma KeepIs(z: Start, s: seq<Item>, k: nat, live: set<int>)
    requires InOrder(z, s, k, live)
    ensures z.pact.keep <= Range(0, k)
  {
  }

  lemma {:induction false} SecondReady(z: Start, c: Cond, l: Cond, r: Cond, k: nat, top: nat, live: set<int>, X: set<int>, lim: Option<nat>)
    requires (c == And(l, r) || c == Or(l, r)) && CondFits(c, k, top, z.pact.sure) && Stacked(k, top, live)
    requires Range(0, k) + live + CondOwn(l, top) <= X && z.pact.keep <= Range(0, k)
    ensures var F := Flow(Second(l, r, k, top), true, z.parent, false, X, z.pact, lim);
      F.Some? && Range(0, k) + live + {top as int} <= F.value
    decreases c, 0
  {
    hide CondFits, Copy, StraightItems, Gen, CondCode, InOrder, FlowLine, CondReg;
    FitsParts(c, l, r, k, top, z.pact.sure);
    var p, q := CondReg(l, top), CondReg(r, top + 1);
    CondRegIn(l, k, top, z.pact.sure);
    CondRegIn(r, k, top + 1, z.pact.sure);
    var z1 := Start(true, z.parent, X, z.pact);
    CopyInOrder(z1, k, top, p, live, live + CondOwn(l, top));
    var copy, last := Copy(top, p, k), Copy(top, q, k);
    CondReady(z1, copy, r, k, top + 1, live + {top as int}, false, lim);
    var Y := Flow(CondCode(r, k, top + 1, copy), true, z.parent, false, X, z.pact, lim).value;
    CopyFlows(Start(false, z.parent, Y, z.pact), k, top, q, live, live + CondOwn(r, top + 1));
  }

  /** A declaration with logical operators always keeps the discipline. */
  lemma LogicalReady(c: Cond, k: nat, opt: bool, parent: bool, first: bool, A: set<int>, pact: Pact, lim: Option<nat>)
    requires Range(0, k) <= A && pact.keep <= Range(0, k) && 1 <= k < 255 && CondFits(c, k, k, pact.sure)
    ensures var F := Flow(if c.Leaf? then Line(DeclareActs(c.e, k)) else CondCode(c, k, k, []), opt, parent, first, A, pact, lim);
      F.Some? && Range(0, k + 1) <= F.value
  {
    hide CondCode, CondFits, DeclareActs;
    if c.Leaf? {
      assert Fitting(c.e, k, k, pact.sure) by { LeafFits(c, k, pact.sure); }
      DeclareReady(c.e, k, opt, parent, A, pact);
    } else {
      var z := Start(opt, parent, A, pact);
      Fresh(z, k);
      CondReady(z, [], c, k, k, {}, first, lim);
    }
  }

  lemma LeafFits(c: Cond, k: nat, sure: bool)
    requires c.Leaf? && CondFits(c, k, k, sure)
    ensures Fitting(c.e, k, k, sure)
  {
  }

  // ----- statements -----

  /** The structured code of a statement in a function with k variables. */
  function Build(st: Stmt, k: nat): Code {
    match st
    case Empty => Nil
    case Do(e) => Line(Acts(e, k, k) + [Discard(Reg(e, k))])
    case Declare(e) => Line(DeclareActs(e, k))
    case DeclareLogical(c) => if c.Leaf? then Line(DeclareActs(c.e, k)) else CondCode(c, k, k, [])
    case Return(e) => Line(Acts(e, k, k) + Issue(Make(RETURN, 1, Reg(e, k), k, 0), k))
    case Then(a, b) => Seq(Build(a, k), Build(b, Locals(a, k)))
    case Block(body) => Build(body, k)
    case When(e, body) => If(Acts(e, k, k), Cast(Reg(e, k)), Build(body, k))
    case Either(e, a, b) => IfElse(Acts(e, k, k), Cast(Reg(e, k)), Build(a, k), Build(b, k))
    case Loop(e, body) => While(k, Nil, Acts(e, k, k), Cast(Reg(e, k)), Build(body, k))
    case Repeat(body, e) => DoWhile(k, Build(body, k), Nil, Acts(e, k, k), Cast(Reg(e, k)))
    case Steps(e, incr, body) => For(k, Range(0, k), Nil, Acts(e, k, k), Cast(Reg(e, k)), Acts(incr, k, k), Build(body, k))
    case Leave => Break
    case Again => Continue
  }

  /** Registers fit, and a break or continue stands in a loop. */
  predicate Fit(st: Stmt, k: nat, sure: bool, inLoop: bool) {
    match st
    case Empty => true
    case Do(e) => Fitting(e, k, k, sure)
    case Declare(e) => Fitting(e, k, k, sure) && k < 255
    case DeclareLogical(c) => CondFits(c, k, k, sure) && k < 255
    case Return(e) => Fitting(e, k, k, sure)
    case Then(a, b) => Fit(a, k, sure, inLoop) && Fit(b, Locals(a, k), sure, inLoop)
    case Block(body) => Fit(body, k, sure, inLoop)
    case When(e, body) => Fitting(e, k, k, sure) && Fit(body, k, sure, inLoop)
    case Either(e, a, b) => Fitting(e, k, k, sure) && Fit(a, k, sure, inLoop) && Fit(b, k, sure, inLoop)
    case Loop(e, body) => Fitting(e, k, k, sure) && Fit(body, k, sure, true)
    case Repeat(body, e) => Fitting(e, k, k, sure) && Fit(body, k, sure, true)
    case Steps(e, incr, body) => Fitting(e, k, k, sure) && Fitting(incr, k, k, sure) && Fit(body, k, sure, true)
    case Leave | Again => inLoop
  }

  /** The increment of a for-loop survives being emitted a second time. */
  ghost predicate ReEmits(e: Expr, k: nat, parent: bool, pact: Pact) {
    var again := FlowItems(ReEmit(Fuse(Acts(e, k, k), false, parent).code, Range(0, k)), false, parent, ALL, pact);
    again.Some? && Range(0, k) <= again.value
  }

  /** No condition dangles behind a comparison, no return of a nested function behind a call, no for-loop
      tests with the function's first instruction, and increments survive their second emission. */
  ghost predicate Sound(st: Stmt, k: nat, opt: bool, parent: bool, first: bool, pact: Pact) {
    match st
    case Return(e) => !(parent && Dangles(e, CALL))
    case Then(a, b) =>
      && Sound(a, k, opt, parent, first, pact)
      && Sound(b, Locals(a, k), false, parent, first && Gen(Build(a, k), opt, parent, first) == [], pact)
    case Block(body) => Sound(body, k, opt, parent, first, pact)
    case When(e, body) => !Dangles(e, CMP) && Sound(body, k, true, parent, false, pact)
    case Either(e, a, b) => !Dangles(e, CMP) && Sound(a, k, true, parent, false, pact) && Sound(b, k, true, parent, false, pact)
    case Loop(e, body) => !Dangles(e, CMP) && Sound(body, k, true, parent, false, pact)
    case Repeat(body, e) => Sound(body, k, opt, parent, first, pact) && !Dangles(e, CMP)
    case Steps(e, incr, body) =>
      && !(first && |TestCode(Acts(e, k, k), Cast(Reg(e, k)), false, parent)| == 1)
      && !Dangles(e, CMP) && Sound(body, k, false, parent, false, pact) && ReEmits(incr, k, parent, pact)
    case _ => true
  }

  /** Variables only grow in number. */
  lemma {:induction false} LocalsGrow(st: Stmt, k: nat, sure: bool, inLoop: bool)
    requires Fit(st, k, sure, inLoop) && k <= 255
    ensures k <= Locals(st, k) <= 255
    decreases st
  {
    if st.Then? {
      LocalsGrow(st.a, k, sure, inLoop);
      LocalsGrow(st.b, Locals(st.a, k), sure, inLoop);
    }
  }

  /** What a program may be given to start with. */
  ghost predicate Placed(k: nat, A: set<int>, pact: Pact, lim: Option<nat>) {
    1 <= k <= 255 && Range(0, k) <= A && pact.keep <= Range(0, k) && (lim.Some? ==> lim.value <= k)
  }

  /** A statement keeps the discipline if and only if it is sound, and then all its variables agree. */
  lemma {:induction false} StmtExactly(st: Stmt, k: nat, opt: bool, parent: bool, first: bool, A: set<int>, pact: Pact, lim: Option<nat>)
    requires Fit(st, k, pact.sure, lim.Some?) && Placed(k, A, pact, lim)
    ensures var F := Flow(Build(st, k), opt, parent, first, A, pact, lim);
      && (F.Some? <==> Sound(st, k, opt, parent, first, pact))
      && (F.Some? ==> Range(0, Locals(st, k)) <= F.value)
    decreases st, 1
  {
    hide FlowLine, FlowTest, FlowCond, FlowIncr, Fitting, Acts, Gen, DeclareActs, CondCode, CondFits;
    match st
    case Empty =>
    case Do(e) => DiscardReady(e, k, opt, parent, A, pact);
    case Declare(e) => DeclareReady(e, k, opt, parent, A, pact);
    case DeclareLogical(c) => LogicalReady(c, k, opt, parent, first, A, pact, lim);
    case Return(e) => ReturnExactly(e, k, opt, parent, A, pact);
    case Then(a, b) =>
      LocalsGrow(a, k, pact.sure, lim.Some?);
      StmtExactly(a, k, opt, parent, first, A, pact, lim);
      var F := Flow(Build(a, k), opt, parent, first, A, pact, lim);
      if F.Some? { StmtExactly(b, Locals(a, k), false, parent, first && Gen(Build(a, k), opt, parent, first) == [], F.value, pact, lim); }
    case Block(body) =>
      LocalsGrow(body, k, pact.sure, lim.Some?);
      StmtExactly(body, k, opt, parent, first, A, pact, lim);
    case When(e, body) => BranchExactly(st, k, opt, parent, first, A, pact, lim);
    case Either(e, a, b) => BranchExactly(st, k, opt, parent, first, A, pact, lim);
    case Loop(e, body) => LoopExactly(st, k, opt, parent, first, A, pact, lim);
    case Repeat(body, e) => LoopExactly(st, k, opt, parent, first, A, pact, lim);
    case Steps(e, incr, body) => StepsExactly(st, k, opt, parent, first, A, pact, lim);
    case Leave =>
    case Again =>
  }

  lemma {:induction false} BranchExactly(st: Stmt, k: nat, opt: bool, parent: bool, first: bool, A: set<int>, pact: Pact, lim: Option<nat>)
    requires (st.When? || st.Either?) && Fit(st, k, pact.sure, lim.Some?) && Placed(k, A, pact, lim)
    ensures var F := Flow(Build(st, k), opt, parent, first, A, pact, lim);
      && (F.Some? <==> Sound(st, k, opt, parent, first, pact)) && (F.Some? ==> Range(0, k) <= F.value)
    decreases st, 0
  {
    hide FlowTest, Fitting, Acts, Gen, Dangles;
    TestExactly(st.e, k, opt, parent, A, pact);
    var T := FlowTest(Acts(st.e, k, k), Cast(Reg(st.e, k)), opt, parent, A, pact);
    if T.Some? {
      match st
      case When(_, body) =>
        LocalsGrow(body, k, pact.sure, lim.Some?);
        StmtExactly(body, k, true, parent, false, T.value, pact, lim);
      case Either(_, a, b) =>
        LocalsGrow(a, k, pact.sure, lim.Some?);
        LocalsGrow(b, k, pact.sure, lim.Some?);
        StmtExactly(a, k, true, parent, false, T.value, pact, lim);
        StmtExactly(b, k, true, parent, false, T.value, pact, lim);
    }
  }

  /** A loop condition without logical operators, at a loop head. */
  lemma CondExactly(e: Expr, k: nat, opt: bool, parent: bool, first: bool, pact: Pact)
    requires Fitting(e, k, k, pact.sure) && 1 <= k <= 255 && pact.keep <= Range(0, k)
    ensures var F := FlowCond(Nil, Acts(e, k, k), Cast(Reg(e, k)), opt, opt, parent, first, Range(0, k), pact);
      && (F.Some? <==> !Dangles(e, CMP)) && (F.Some? ==> Range(0, k) <= F.value)
  {
    hide FlowTest, Fitting, Acts, Dangles;
    TestExactly(e, k, opt, parent, Range(0, k), pact);
  }

  lemma FlowOfWhile(n: nat, test: seq<Item>, r: Byte, body: Code, opt: bool, parent: bool, first: bool, A: set<int>,
        pact: Pact, lim: Option<nat>)
    requires Range(0, n) <= A
    ensures var T := FlowCond(Nil, test, r, opt, opt, parent, first, Range(0, n), pact);
      Flow(While(n, Nil, test, r, body), opt, parent, first, A, pact, lim) ==
        if T.Some? then Narrow(Flow(body, true, parent, false, T.value, pact, Some(n)), Range(0, n)) else None
  {
    hide FlowCond, Range;
  }

  lemma FlowOfDoWhile(n: nat, test: seq<Item>, r: Byte, body: Code, opt: bool, parent: bool, first: bool, A: set<int>,
        pact: Pact, lim: Option<nat>)
    requires Range(0, n) <= A
    ensures var B := Narrow(Flow(body, opt, parent, first, Range(0, n), pact, Some(n)), Range(0, n));
      Flow(DoWhile(n, body, Nil, test, r), opt, parent, first, A, pact, lim) ==
        if B.None? then None
        else
          var first' := first && Gen(body, opt, parent, first) == [];
          Narrow(FlowCond(Nil, test, r, false, false, parent, first', Range(0, n), pact), Range(0, n))
  {
    hide FlowCond, Range, Gen;
  }

  lemma FlowOfFor(n: nat, test: seq<Item>, r: Byte, incr: seq<Item>, body: Code, opt: bool, parent: bool, first: bool,
        A: set<int>, pact: Pact, lim: Option<nat>)
    requires Range(0, n) <= A
    ensures var T := FlowCond(Nil, test, r, false, false, parent, first, Range(0, n), pact);
      Flow(For(n, Range(0, n), Nil, test, r, incr, body), opt, parent, first, A, pact, lim) ==
        if (first && |TestCode(test, r, false, parent)| == 1) || T.None? then None
        else if Narrow(Flow(body, false, parent, false, T.value, pact, Some(n)), Range(0, n)).None? then None
        else Narrow(FlowIncr(incr, Range(0, n), parent, Range(0, n), pact), Range(0, n))
  {
    hide FlowCond, Range, TestCode, FlowIncr;
  }

  lemma {:induction false} LoopExactly(st: Stmt, k: nat, opt: bool, parent: bool, first: bool, A: set<int>, pact: Pact, lim: Option<nat>)
    requires (st.Loop? || st.Repeat?) && Fit(st, k, pact.sure, lim.Some?) && Placed(k, A, pact, lim)
    ensures var F := Flow(Build(st, k), opt, parent, first, A, pact, lim);
      && (F.Some? <==> Sound(st, k, opt, parent, first, pact)) && (F.Some? ==> Range(0, k) <= F.value)
    decreases st, 0
  {
    hide Flow, FlowCond, Fitting, Acts, Gen, Dangles, Range, Cast, Reg;
    var H := Range(0, k);
    LocalsGrow(st.body, k, pact.sure, true);
    var test, r := Acts(st.e, k, k), Cast(Reg(st.e, k));
    match st
    case Loop(e, body) =>
      CondExactly(e, k, opt, parent, first, pact);
      FlowOfWhile(k, test, r, Build(body, k), opt, parent, first, A, pact, lim);
      var T := FlowCond(Nil, test, r, opt, opt, parent, first, H, pact);
      if T.Some? {
        StmtExactly(body, k, true, parent, false, T.value, pact, Some(k));
        RangeLess(k, Locals(body, k));
      }
    case Repeat(body, e) =>
      FlowOfDoWhile(k, test, r, Build(body, k), opt, parent, first, A, pact, lim);
      StmtExactly(body, k, opt, parent, first, H, pact, Some(k));
      RangeLess(k, Locals(body, k));
      CondExactly(e, k, false, parent, first && Gen(Build(body, k), opt, parent, first) == [], pact);
  }

  lemma RangeLess(a: nat, b: nat)
    requires a <= b
    ensures Range(0, a) <= Range(0, b)
  {
  }

  lemma {:induction false} StepsExactly(st: Stmt, k: nat, opt: bool, parent: bool, first: bool, A: set<int>, pact: Pact, lim: Option<nat>)
    requires st.Steps? && Fit(st, k, pact.sure, lim.Some?) && Placed(k, A, pact, lim)
    ensures var F := Flow(Build(st, k), opt, parent, first, A, pact, lim);
      && (F.Some? <==> Sound(st, k, opt, parent, first, pact)) && (F.Some? ==> Range(0, k) <= F.value)
    decreases st, 0
  {
    hide Flow, FlowCond, FlowIncr, ReEmits, Fitting, Acts, Dangles, TestCode, Range, Cast, Reg;
    var H := Range(0, k);
    var test, r := Acts(st.e, k, k), Cast(Reg(st.e, k));
    LocalsGrow(st.body, k, pact.sure, true);
    CondExactly(st.e, k, false, parent, first, pact);
    FlowOfFor(k, test, r, Acts(st.incr, k, k), Build(st.body, k), opt, parent, first, A, pact, lim);
    IncrExactly(st.incr, k, parent, pact);
    var T := FlowCond(Nil, test, r, false, false, parent, first, H, pact);
    if T.Some? {
      StmtExactly(st.body, k, false, parent, false, T.value, pact, Some(k));
      RangeLess(k, Locals(st.body, k));
    }
  }

  /** An increment keeps the discipline exactly when it survives its second emission. */
  lemma IncrExactly(e: Expr, k: nat, parent: bool, pact: Pact)
    requires Fitting(e, k, k, pact.sure) && 1 <= k <= 255 && pact.keep <= Range(0, k)
    ensures Narrow(FlowIncr(Acts(e, k, k), Range(0, k), parent, Range(0, k), pact), Range(0, k)).Some? <==> ReEmits(e, k, parent, pact)
  {
    hide FlowLine, FlowItems, Fuse, Acts, Fitting, Range;
    IncrReady(e, k, parent, pact);
  }

  /** Emitted the first time, an increment always keeps the discipline. */
  lemma IncrReady(e: Expr, k: nat, parent: bool, pact: Pact)
    requires Fitting(e, k, k, pact.sure) && 1 <= k <= 255 && pact.keep <= Range(0, k)
    ensures var F := FlowLine(Acts(e, k, k), false, parent, Range(0, k), pact); F.Some? && Range(0, k) <= F.value
  {
    hide Acts, Fitting, FlowItems, CodeFrom, Clean;
    StraightActs(e, k, k, pact.sure);
    WholeReady(Start(false, parent, Range(0, k), pact), e, k);
  }

  // ----- increments -----

  /** Nothing in the code would be merged or changed if it were emitted once more. */
  ghost predicate Settled(code: seq<Instr>, locals: set<int>) {
    && (forall j :: 0 <= j < |code| ==> Reads(code[j]) <= ALL && code[j].op != RETURN)
    && (forall j :: 0 < j < |code| ==> Merge(code[j - 1], code[j], locals).None? && DropSelfTarget(code[j]) == code[j])
  }

  lemma AddSettled(code: seq<Instr>, i: Instr, locals: set<int>, parent: bool, A: set<int>, pact: Pact)
    requires ALL <= A && pact.keep <= ALL && Reads(i) <= ALL && i.op != RETURN
    requires code != [] ==> Merge(Last(code), i, locals).None? && DropSelfTarget(i) == i
    ensures var b := Buf(code, code != []);
      && AddInstruction(b, i, locals, parent, 0) == Buf(code + [i], true)
      && FlowItem(b, Emit(i, locals, 0), parent, A, pact) == Some(After(A, i, pact.sure)) && ALL <= After(A, i, pact.sure)
  {
    hide Merge, Reads, DropSelfTarget;
    assert A <= After(A, i, pact.sure);
  }

  /** Settled code comes out of its second emission unchanged, and keeps the discipline. */
  lemma {:induction false} SettledAgain(code: seq<Instr>, locals: set<int>, parent: bool, pact: Pact, n: nat)
    requires Settled(code, locals) && n <= |code| && pact.keep <= ALL
    ensures var items := ReEmit(code[..n], locals);
      && Fuse(items, false, parent) == Buf(code[..n], code[..n] != [])
      && FlowItems(items, false, parent, ALL, pact).Some? && ALL <= FlowItems(items, false, parent, ALL, pact).value
    decreases n
  {
    hide Merge, Reads, DropSelfTarget, After, AddInstruction, FlowItem;
    if n > 0 {
      SettledAgain(code, locals, parent, pact, n - 1);
      var z := Start(false, parent, ALL, pact);
      var before, last := ReEmit(code[..n - 1], locals), Emit(code[n - 1], locals, 0);
      assert ReEmit(code[..n], locals) == before + [last];
      if n > 1 { assert Last(code[..n - 1]) == code[n - 2]; }
      AddSettled(code[..n - 1], code[n - 1], locals, parent, FlowItems(before, false, parent, ALL, pact).value, pact);
      hide FlowItems, Fuse;
      Snoc(z, before, last);
      assert code[..n] == code[..n - 1] + [code[n - 1]];
    } else {
      assert ReEmit(code[..0], locals) == [];
    }
  }

  /** A for-loop may step a variable in place by a constant. */
  lemma StepReEmits(op: Op, x: nat, n: int, k: nat, parent: bool, pact: Pact)
    requires op in {ADD, SUB, MUL, DIV, MOD} && x < k < 255 && pact.keep <= Range(0, k)
    ensures ReEmits(Compound(op, x, Lit(LOADINT, n)), k, parent, pact)
  {
    hide Fuse, FlowItems, Acts, Settled, ReEmit;
    var load, add := Instr(LOADINT, k, n, 0, 0), Instr(op, x, k, x, 0);
    StepCode(op, x, n, k, parent);
    StepSettled(load, add, k);
    SettledAgain([load, add], Range(0, k), parent, pact, 2);
    assert [load, add][..2] == [load, add];
  }

  lemma StepSettled(load: Instr, add: Instr, k: nat)
    requires load.op == LOADINT && add.op in {ADD, SUB, MUL, DIV, MOD} && 0 <= add.a1 < 256
    ensures Settled([load, add], Range(0, k))
  {
    hide Range, Merge;
    InPlaceUnmerged(add, Range(0, k));
    InAll(add.a1);
    InAll(add.a2);
  }

  lemma InAll(r: int)
    requires 0 <= r < 256
    ensures r in ALL
  {
    hide Range;
  }

  lemma StepActs(op: Op, x: nat, n: int, k: nat)
    requires x < k < 255
    ensures Acts(Compound(op, x, Lit(LOADINT, n)), k, k)
         == [] + [Emit(Instr(LOADINT, k, n, 0, 0), Range(0, k), 0)] + [Emit(Instr(op, x, k, x, 0), Range(0, k), 0)] + [Snooze]
  {
    hide Range;
    assert Make(LOADINT, k, n, 0, 0) == Instr(LOADINT, k, n, 0, 0) && Make(op, x, k, x, 0) == Instr(op, x, k, x, 0);
  }

  lemma FirstAdds(i: Instr, locals: set<int>, parent: bool)
    ensures Act(Buf([], false), Emit(i, locals, 0), parent) == Buf([i], true)
  {
  }

  lemma SecondAdds(p: Instr, i: Instr, locals: set<int>, parent: bool)
    requires i.op in {ADD, SUB, MUL, DIV, MOD}
    ensures Act(Buf([p], true), Emit(i, locals, 0), parent) == Buf([p, i], true)
  {
  }

  lemma StepCode(op: Op, x: nat, n: int, k: nat, parent: bool)
    requires op in {ADD, SUB, MUL, DIV, MOD} && x < k < 255
    ensures Fuse(Acts(Compound(op, x, Lit(LOADINT, n)), k, k), false, parent).code == [Instr(LOADINT, k, n, 0, 0), Instr(op, x, k, x, 0)]
  {
    var load, add, locals := Instr(LOADINT, k, n, 0, 0), Instr(op, x, k, x, 0), Range(0, k);
    var none: seq<Item> := [];
    var one := none + [Emit(load, locals, 0)];
    assert Fuse(none, false, parent) == Buf([], false);
    hide Acts, Range, Act, Fuse;
    StepActs(op, x, n, k);
    FuseSnoc(none, Emit(load, locals, 0), false, parent);
    FirstAdds(load, locals, parent);
    FuseSnoc(one, Emit(add, locals, 0), false, parent);
    SecondAdds(load, add, locals, parent);
    SnoozeLast(one + [Emit(add, locals, 0)], parent);
  }

  lemma SnoozeLast(items: seq<Item>, parent: bool)
    ensures Fuse(items + [Snooze], false, parent).code == Fuse(items, false, parent).code
  {
    FuseSnoc(items, Snooze, false, parent);
  }

  // ----- whole functions -----

  /** Compile a function body and run it.  For every program whose registers fit and which is sound, every lawful
      environment and every start, the emitted code finishes if and only if the structured code does, in the same way. */
  method CompileStructured<V(!new), W(!new)>(st: Stmt, k: nat, parent: bool, ghost env: Env<V, W>, ghost pact: Pact,
        ghost s: State<V, W>, ghost t: State<V, W>)
    returns (code: seq<Instr>)
    requires 1 <= k <= 255 && pact.keep <= Range(0, k) && Fit(st, k, pact.sure, false) && Sound(st, k, false, parent, true, pact)
    requires Lawful(env) && !env.watch && Agree(Range(0, k), s, t) && (pact.sure ==> NoSlip(env, Build(st, k), s))
    ensures Compiler.Faithful(env, Build(st, k), code, Range(0, Locals(st, k)), pact, s, t)
  {
    hide Fit, Sound, Lawful, NoSlip, Flow, Compiler.Faithful;
    StmtExactly(st, k, false, parent, true, Range(0, k), pact, None);
    code := FuncState.CompileAndRun(Build(st, k), parent, env, Range(0, k), pact, s, t);
    ghost var X := Flow(Build(st, k), false, parent, true, Range(0, k), pact, None).value;
    FaithfulLess(env, Build(st, k), code, X, Range(0, Locals(st, k)), pact, s, t);
  }

  lemma FaithfulLess<V(!new), W(!new)>(env: Env<V, W>, c: Code, prog: seq<Instr>, X: set<int>, Y: set<int>, pact: Pact,
        s: State<V, W>, t: State<V, W>)
    requires Compiler.Faithful(env, c, prog, X, pact, s, t) && Y <= X
    ensures Compiler.Faithful(env, c, prog, Y, pact, s, t)
  {
    hide Ev, Run, HaltAgree;
  }
}
