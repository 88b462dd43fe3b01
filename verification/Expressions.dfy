/** The expression compiler: which acts it performs for an expression, with the registers its
    target stack gives out, and that every expression keeps the emission discipline. */
module Expressions {
  import opened Common
  import opened Bytecode
  import opened Peephole
  import opened Syntax

  // ----- registers -----

  /** The value of the expression is in a local variable's own register; otherwise it is in the
      next free register. */
  function InLocal(e: Expr): bool {
    match e
    case Local(_) | AssignLocal(_, _) | Compound(_, _, _) => true
    case Comma(_, b) => InLocal(b)
    case _ => false
  }

  /** The register of the value when `top` registers are taken. */
  function Reg(e: Expr, top: nat): nat {
    match e
    case Local(r) => r
    case AssignLocal(x, _) => x
    case Compound(_, x, _) => x
    case Comma(_, b) => Reg(b, top)
    case _ => top
  }

  /** The registers taken once the value stands on the target stack. */
  function Top(e: Expr, top: nat): nat { if InLocal(e) then top else top + 1 }

  function Count(args: Args): nat {
    match args
    case NoArgs => 0
    case More(_, rest) => 1 + Count(rest)
  }

  // ----- acts -----

  function Issue(i: Instr, k: nat): seq<Item> { [Emit(i, Range(0, k), 0)] }

  /** An instruction over registers, each cut to a byte as the instruction's fields are. */
  function Make(op: Op, a0: int, a1: int, a2: int, a3: int): Instr { Instr(op, Cast(a0), a1, Cast(a2), Cast(a3)) }

  /** The acts for an expression in a function with k local variables when `top` registers are taken. */
  function Acts(e: Expr, k: nat, top: nat): seq<Item>
    decreases e, 0
  {
    match e
    case Local(_) => []
    case GetOuter(n) => Issue(Make(GETOUTER, top, n, 0, 0), k)
    case Lit(op, n) => Issue(Make(op, top, n, 0, 0), k)
    case Null => Issue(Make(LOADNULLS, top, 1, 0, 0), k)
    case Index(o, key) =>
      var t := Top(o, top);
      Acts(o, k, top) + Acts(key, k, t) + Issue(Make(GET, top, Reg(o, top), Reg(key, t), 0), k)
    case Bin(op, kind, l, r) =>
      var t := Top(l, top);
      Acts(l, k, top) + Acts(r, k, t) + Issue(Make(op, top, Reg(r, t), Reg(l, top), kind), k)
    case AssignLocal(x, v) => Acts(v, k, top) + Issue(Make(MOVE, x, Reg(v, top), 0, 0), k)
    case Compound(op, x, v) => Acts(v, k, top) + Issue(Make(op, x, Reg(v, top), x, 0), k) + [Snooze]
    case AssignOuter(n, v) => Acts(v, k, top) + Issue(Make(SETOUTER, top, n, Reg(v, top), 0), k)
    case SetSlot(op, o, key, v) =>
      var t := Top(o, top);
      var u := Top(key, t);
      Acts(o, k, top) + Acts(key, k, t) + Acts(v, k, u) + Issue(Make(op, top, Reg(o, top), Reg(key, t), Reg(v, u)), k)
    case Call(f, args) =>
      var t := Top(f, top);
      Acts(f, k, top) + Issue(Make(MOVE, t, 0, 0, 0), k) + ArgActs(args, k, t + 1)
      + Issue(Make(CALL, top, Reg(f, top), t, Count(args) + 1), k)
    case Method(o, key, args) =>
      var t := Top(o, top);
      Acts(o, k, top) + Acts(key, k, t) + Issue(Make(PREPCALL, top, Reg(key, t), Reg(o, top), top + 1), k)
      + ArgActs(args, k, top + 2) + Issue(Make(CALL, top, top, top + 1, Count(args) + 1), k)
    case Comma(a, b) => Acts(a, k, top) + Acts(b, k, top)
  }

  /** Arguments take one register each; a local variable is copied there. */
  function ArgActs(args: Args, k: nat, top: nat): seq<Item>
    decreases args, 0
  {
    match args
    case NoArgs => []
    case More(a, rest) => ArgAct(a, k, top) + ArgActs(rest, k, top + 1)
  }

  function ArgAct(a: Expr, k: nat, top: nat): seq<Item>
    decreases a, 1
  {
    Acts(a, k, top) + if InLocal(a) then Issue(Make(MOVE, top, Reg(a, top), 0, 0), k) else []
  }

  // ----- what the parser and the stack-size check guarantee -----

  /** Operators are what they should be, local variables exist, every register fits in a byte, and the
      result register of a call, which is read as a signed byte, is below 128.  Unless no modulo fails,
      a modulo only updates a variable in place. */
  predicate Fitting(e: Expr, k: nat, top: nat, sure: bool) {
    match e
    case Local(r) => r < k
    case GetOuter(n) => top < 255
    case Lit(op, n) => top < 255 && op in {LOAD, LOADINT, LOADFLOAT, LOADBOOL} && (op == LOAD ==> n >= 0)
    case Null => top < 255
    case Index(o, key) => top < 255 && Fitting(o, k, top, sure) && Fitting(key, k, Top(o, top), sure)
    case Bin(op, kind, l, r) =>
      && top < 255 && op in {ADD, SUB, MUL, DIV, MOD, BITW, EQ, NE, CMP} && (op == MOD ==> sure)
      && (op in {EQ, NE} ==> kind == 0) && Fitting(l, k, top, sure) && Fitting(r, k, Top(l, top), sure)
    case AssignLocal(x, v) => x < k && Fitting(v, k, top, sure)
    case Compound(op, x, v) => x < k && op in {ADD, SUB, MUL, DIV, MOD} && Fitting(v, k, top, sure)
    case AssignOuter(n, v) => top < 255 && Fitting(v, k, top, sure)
    case SetSlot(op, o, key, v) =>
      && top < 255 && op in {SET, NEWSLOT} && Fitting(o, k, top, sure)
      && Fitting(key, k, Top(o, top), sure) && Fitting(v, k, Top(key, Top(o, top)), sure)
    case Call(f, args) => top < 128 && Fitting(f, k, top, sure) && ArgsFit(args, k, Top(f, top) + 1, sure)
    case Method(o, key, args) =>
      top < 128 && Fitting(o, k, top, sure) && Fitting(key, k, Top(o, top), sure) && ArgsFit(args, k, top + 2, sure)
    case Comma(a, b) => Fitting(a, k, top, sure) && Fitting(b, k, top, sure)
  }

  predicate ArgsFit(args: Args, k: nat, top: nat, sure: bool) {
    match args
    case NoArgs => top <= 255
    case More(a, rest) => top < 255 && Fitting(a, k, top, sure) && ArgsFit(rest, k, top + 1, sure)
  }

  // ----- the discipline along the acts -----

  /** Where a stream of acts starts. */
  datatype Start = Start(opt: bool, parent: bool, A: set<int>, pact: Pact)

  ghost function FlowFrom(z: Start, s: seq<Item>): Option<set<int>> { FlowItems(s, z.opt, z.parent, z.A, z.pact) }

  function CodeFrom(z: Start, s: seq<Item>): Buf { Fuse(s, z.opt, z.parent) }

  /** The instruction the optimizer may look at computes into a temporary, not into a variable. */
  predicate Clean(b: Buf, k: nat, sure: bool) {
    b.opt && b.code != [] ==>
      var p := Last(b.code);
      && (Retargetable(p.op) || p.op == CMP ==> p.a0 as int >= k)
      && (p.op == LOADNULLS ==> p.a1 >= 0) && (p.op == CMP ==> 0 <= p.a1 < NONE) && (p.op == MOD ==> sure)
      && (p.op in {SET, NEWSLOT, SETOUTER, CALL} ==> p.a0 as int >= k) && (p.op == CALL ==> p.a0 < 128)
  }

  /** The stream so far is disciplined, and the local variables and the live temporaries agree. */
  ghost predicate InOrder(z: Start, s: seq<Item>, k: nat, live: set<int>) {
    && FlowFrom(z, s).Some? && Range(0, k) <= FlowFrom(z, s).value && live <= FlowFrom(z, s).value
    && Clean(CodeFrom(z, s), k, z.pact.sure) && z.pact.keep <= Range(0, k)
  }

  lemma Snoc(z: Start, s: seq<Item>, item: Item)
    requires FlowFrom(z, s).Some?
    ensures FlowFrom(z, s + [item]) == FlowItem(CodeFrom(z, s), item, z.parent, FlowFrom(z, s).value, z.pact)
    ensures CodeFrom(z, s + [item]) == Act(CodeFrom(z, s), item, z.parent)
  {
    assert (s + [item])[..|s|] == s;
  }

  /** Instructions no rule merges with what stands before them. */
  predicate Unmerged(op: Op) {
    op in {LOADINT, LOADFLOAT, LOADBOOL, GETOUTER, SETOUTER, SET, NEWSLOT, ADD, SUB, MUL, DIV, MOD, BITW, CMP, CALL}
  }

  lemma PutUnmerged(z: Start, s: seq<Item>, k: nat, live: set<int>, i: Instr, live': set<int>)
    requires InOrder(z, s, k, live) && Unmerged(i.op) && Reads(i) <= Range(0, k) + live
    requires live' <= After(Range(0, k) + live, i, z.pact.sure)
    requires k <= i.a0 as int && k <= 255 && (i.op == CALL ==> i.a0 < 128)
    requires i.op == CMP ==> 0 <= i.a1 < NONE
    requires i.op == MOD ==> z.pact.sure
    ensures InOrder(z, s + Issue(i, k), k, live')
  {
    hide FlowItems, Fuse, Reads, After, FlowItem, AddInstruction, Clean;
    Snoc(z, s, Issue(i, k)[0]);
    var A := FlowFrom(z, s).value;
    AddUnmerged(CodeFrom(z, s), i, Range(0, k), z.parent, k, A, z.pact);
    AfterMore(Range(0, k) + live, A, i, z.pact.sure);
  }

  lemma InPlaceUnmerged(i: Instr, locals: set<int>)
    requires i.op in {ADD, SUB, MUL, DIV, MOD}
    ensures forall p :: Merge(p, i, locals).None?
  {
  }

  lemma AfterMore(A: set<int>, B: set<int>, i: Instr, sure: bool)
    requires A <= B
    ensures After(A, i, sure) <= After(B, i, sure) && B <= After(B, i, sure)
  {
  }

  lemma AddUnmerged(b: Buf, i: Instr, locals: set<int>, parent: bool, k: nat, A: set<int>, pact: Pact)
    requires Unmerged(i.op) && Reads(i) <= A && pact.keep <= A
    requires k <= i.a0 as int && k <= 255 && (i.op == CALL ==> i.a0 < 128)
    requires i.op == CMP ==> 0 <= i.a1 < NONE
    requires i.op == MOD ==> pact.sure
    ensures FlowItem(b, Emit(i, locals, 0), parent, A, pact) == Some(After(A, i, pact.sure))
    ensures Clean(AddInstruction(b, i, locals, parent, 0), k, pact.sure)
  {
    hide Reads, After;
  }

  /** A modulo that updates a variable, and the other operators in place. */
  lemma PutInPlace(z: Start, s: seq<Item>, k: nat, live: set<int>, i: Instr)
    requires InOrder(z, s, k, live) && i.op in {ADD, SUB, MUL, DIV, MOD} && Reads(i) <= Range(0, k) + live
    ensures InOrder(z, s + Issue(i, k) + [Snooze], k, live)
  {
    hide FlowItems, Fuse, Reads, Merge, DropSelfTarget;
    Snoc(z, s, Issue(i, k)[0]);
    Snoc(z, s + Issue(i, k), Snooze);
    InPlaceUnmerged(i, Range(0, k));
    AfterMore({}, FlowFrom(z, s).value, i, z.pact.sure);
  }

  lemma PutLoad(z: Start, s: seq<Item>, k: nat, live: set<int>, i: Instr)
    requires InOrder(z, s, k, live) && i.op == LOAD && 0 <= i.a1 && i.a0 as int >= k
    ensures InOrder(z, s + Issue(i, k), k, live + {i.a0 as int})
  {
    hide FlowItems, Fuse;
    Snoc(z, s, Issue(i, k)[0]);
  }

  lemma PutNull(z: Start, s: seq<Item>, k: nat, live: set<int>, i: Instr)
    requires InOrder(z, s, k, live) && i.op == LOADNULLS && i.a1 == 1
    ensures InOrder(z, s + Issue(i, k), k, live + {i.a0 as int})
  {
    hide FlowItems, Fuse;
    Snoc(z, s, Issue(i, k)[0]);
  }

  lemma PutGet(z: Start, s: seq<Item>, k: nat, live: set<int>, i: Instr, live': set<int>)
    requires InOrder(z, s, k, live) && i.op == GET && Reads(i) <= Range(0, k) + live && i.a0 as int >= k
    requires 0 <= i.a1 < 256 && (i.a1 == i.a2 ==> i.a2 as int < k)
    requires live' <= live - {i.a2 as int} + {i.a0 as int}
    ensures InOrder(z, s + Issue(i, k), k, live')
  {
    hide FlowItems, Fuse;
    Snoc(z, s, Issue(i, k)[0]);
  }

  lemma PutEqual(z: Start, s: seq<Item>, k: nat, live: set<int>, i: Instr, live': set<int>)
    requires InOrder(z, s, k, live) && i.op in {EQ, NE} && i.a3 == 0 && Reads(i) <= Range(0, k) + live && i.a0 as int >= k
    requires i.a1 == i.a2 as int ==> i.a2 as int < k
    requires live' <= live - {i.a1} + {i.a0 as int}
    ensures InOrder(z, s + Issue(i, k), k, live')
  {
    hide FlowItems, Fuse, FlowItem, AddInstruction, Clean, Reads;
    Snoc(z, s, Issue(i, k)[0]);
    AddEqual(CodeFrom(z, s), i, Range(0, k), z.parent, k, FlowFrom(z, s).value, z.pact);
  }

  /** What the discipline keeps when an instruction may be merged with the load of its literal operand r. */
  ghost predicate GivesUp(F: Option<set<int>>, A: set<int>, k: nat, r: int, written: set<int>) {
    F.Some? && (forall q :: q in A && (q != r || q < k) ==> q in F.value) && written <= F.value
  }

  lemma AddEqual(b: Buf, i: Instr, locals: set<int>, parent: bool, k: nat, A: set<int>, pact: Pact)
    requires i.op in {EQ, NE} && i.a3 == 0 && Reads(i) <= A && pact.keep <= A && (forall q :: q in pact.keep ==> q < k)
    requires Clean(b, k, pact.sure) && (i.a1 == i.a2 as int ==> i.a2 as int < k)
    ensures GivesUp(FlowItem(b, Emit(i, locals, 0), parent, A, pact), A, k, i.a1, {i.a0 as int})
    ensures Clean(AddInstruction(b, i, locals, parent, 0), k, pact.sure)
  {
    EqualClean(b, i, locals, parent, k, pact.sure);
    hide AddInstruction;
  }

  lemma EqualClean(b: Buf, i: Instr, locals: set<int>, parent: bool, k: nat, sure: bool)
    requires i.op in {EQ, NE}
    ensures Clean(AddInstruction(b, i, locals, parent, 0), k, sure)
  {
  }

  lemma PutPrepcall(z: Start, s: seq<Item>, k: nat, live: set<int>, i: Instr, live': set<int>)
    requires InOrder(z, s, k, live) && i.op == PREPCALL && Reads(i) <= Range(0, k) + live
    requires i.a1 == i.a2 as int ==> i.a2 as int < k
    requires live' <= live - {i.a1} + {i.a0 as int, i.a3 as int}
    ensures InOrder(z, s + Issue(i, k), k, live')
  {
    hide FlowItems, Fuse, FlowItem, AddInstruction, Clean, Reads;
    Snoc(z, s, Issue(i, k)[0]);
    AddPrepcall(CodeFrom(z, s), i, Range(0, k), z.parent, k, FlowFrom(z, s).value, z.pact);
  }

  lemma AddPrepcall(b: Buf, i: Instr, locals: set<int>, parent: bool, k: nat, A: set<int>, pact: Pact)
    requires i.op == PREPCALL && Reads(i) <= A && pact.keep <= A && (forall q :: q in pact.keep ==> q < k) && Clean(b, k, pact.sure)
    requires i.a1 == i.a2 as int ==> i.a2 as int < k
    ensures GivesUp(FlowItem(b, Emit(i, locals, 0), parent, A, pact), A, k, i.a1, {i.a0 as int, i.a3 as int})
    ensures Clean(AddInstruction(b, i, locals, parent, 0), k, pact.sure)
  {
  }

  /** A move of a temporary gives the temporary up; one of a variable never disturbs it. */
  lemma PutMove(z: Start, s: seq<Item>, k: nat, live: set<int>, i: Instr, live': set<int>)
    requires InOrder(z, s, k, live) && i.op == MOVE && 0 <= i.a1 < 256 && Reads(i) <= Range(0, k) + live
    requires live' <= live + {i.a0 as int} && (i.a1 in live' ==> i.a1 < k)
    ensures InOrder(z, s + Issue(i, k), k, live')
  {
    hide FlowItems, Fuse;
    Snoc(z, s, Issue(i, k)[0]);
  }

  // ----- every expression keeps the discipline -----

  lemma Assoc3(s: seq<Item>, a: seq<Item>, b: seq<Item>, c: seq<Item>)
    ensures s + (a + b + c) == s + a + b + c
  {
  }

  lemma Assoc4(s: seq<Item>, a: seq<Item>, b: seq<Item>, c: seq<Item>, d: seq<Item>)
    ensures s + (a + b + c + d) == s + a + b + c + d
  {
    Assoc3(s, a, b, c);
    assert s + ((a + b + c) + d) == (s + (a + b + c)) + d;
  }

  lemma Assoc5(s: seq<Item>, a: seq<Item>, b: seq<Item>, c: seq<Item>, d: seq<Item>, e: seq<Item>)
    ensures s + (a + b + c + d + e) == s + a + b + c + d + e
  {
    Assoc4(s, a, b, c, d);
    assert s + ((a + b + c + d) + e) == (s + (a + b + c + d)) + e;
  }

  lemma OneMore(live: set<int>, t: nat, n: nat)
    ensures live + {t as int} + Range(t + 1, t + 1 + n) == live + Range(t, t + (n + 1))
  {
  }

  /** The temporary that holds the value, if it is in one. */
  function Own(e: Expr, top: nat): set<int> { if InLocal(e) then {} else {top as int} }

  lemma {:induction false} RegIn(e: Expr, k: nat, top: nat, sure: bool)
    requires Fitting(e, k, top, sure) && k <= top <= 255
    ensures InLocal(e) ==> Reg(e, top) < k
    ensures !InLocal(e) ==> Reg(e, top) == top < 255
    decreases e
  {
    if e.Comma? { RegIn(e.second, k, top, sure); }
  }

  /** The state of the target stack: k variables, `top` registers taken, and the live temporaries among them. */
  ghost predicate Stacked(k: nat, top: nat, live: set<int>) {
    1 <= k <= top <= 255 && live <= Range(k, top)
  }

  lemma StackedMore(e: Expr, k: nat, top: nat, live: set<int>, sure: bool)
    requires Stacked(k, top, live) && Fitting(e, k, top, sure)
    ensures Stacked(k, Top(e, top), live + Own(e, top)) && Reg(e, top) < 255
    ensures Reg(e, top) as int in Range(0, k) + Own(e, top)
    ensures InLocal(e) ==> Reg(e, top) < k && Top(e, top) == top
    ensures !InLocal(e) ==> Reg(e, top) == top && Top(e, top) == top + 1
  {
    RegIn(e, k, top, sure);
  }

  /** From a disciplined stream, the acts of any expression lead to a disciplined stream in which its value
      agrees, as do all variables and all temporaries that were live. */
  lemma {:induction false} ExprReady(z: Start, s: seq<Item>, e: Expr, k: nat, top: nat, live: set<int>)
    requires InOrder(z, s, k, live) && Fitting(e, k, top, z.pact.sure) && Stacked(k, top, live)
    ensures InOrder(z, s + Acts(e, k, top), k, live + Own(e, top))
    decreases e, 1
  {
    hide InOrder, Reads, After, Fitting, Acts;
    match e
    case Local(_) => LocalReady(z, s, e, k, top, live);
    case GetOuter(_) => LeafReady(z, s, e, k, top, live);
    case Lit(_, _) => LeafReady(z, s, e, k, top, live);
    case Null => LeafReady(z, s, e, k, top, live);
    case Index(_, _) => IndexReady(z, s, e, k, top, live);
    case Bin(_, _, _, _) => BinReady(z, s, e, k, top, live);
    case AssignLocal(_, _) => AssignReady(z, s, e, k, top, live);
    case Compound(_, _, _) => AssignReady(z, s, e, k, top, live);
    case AssignOuter(_, _) => AssignReady(z, s, e, k, top, live);
    case SetSlot(_, _, _, _) => SetReady(z, s, e, k, top, live);
    case Call(_, _) => CallReady(z, s, e, k, top, live);
    case Method(_, _, _) => MethodReady(z, s, e, k, top, live);
    case Comma(_, _) => CommaReady(z, s, e, k, top, live);
  }

  lemma LocalReady(z: Start, s: seq<Item>, e: Expr, k: nat, top: nat, live: set<int>)
    requires e.Local? && InOrder(z, s, k, live)
    ensures InOrder(z, s + Acts(e, k, top), k, live + Own(e, top))
  {
    assert s + [] == s && live + {} == live;
  }

  lemma LeafReady(z: Start, s: seq<Item>, e: Expr, k: nat, top: nat, live: set<int>)
    requires (e.GetOuter? || e.Lit? || e.Null?) && InOrder(z, s, k, live) && Fitting(e, k, top, z.pact.sure) && Stacked(k, top, live)
    ensures InOrder(z, s + Acts(e, k, top), k, live + Own(e, top))
  {
    hide InOrder, After, Reads;
    match e
    case GetOuter(n) => PutSimple(z, s, k, live, GETOUTER, top, n);
    case Null => PutNull(z, s, k, live, Make(LOADNULLS, top, 1, 0, 0));
    case Lit(op, n) =>
      if op == LOAD { PutLoad(z, s, k, live, Make(op, top, n, 0, 0)); } else { PutSimple(z, s, k, live, op, top, n); }
  }

  lemma PutSimple(z: Start, s: seq<Item>, k: nat, live: set<int>, op: Op, top: nat, n: int)
    requires InOrder(z, s, k, live) && op in {GETOUTER, LOADINT, LOADFLOAT, LOADBOOL} && k <= top < 255
    ensures InOrder(z, s + Issue(Make(op, top, n, 0, 0), k), k, live + {top as int})
  {
    hide InOrder;
    PutUnmerged(z, s, k, live, Make(op, top, n, 0, 0), live + {top as int});
  }

  /** The registers of two operands, one after the other. */
  lemma PairStacked(a: Expr, b: Expr, k: nat, top: nat, live: set<int>, sure: bool)
    requires Stacked(k, top, live) && Fitting(a, k, top, sure) && Fitting(b, k, Top(a, top), sure)
    ensures var t := Top(a, top);
      var live' := live + Own(a, top) + Own(b, t);
      && Stacked(k, t, live + Own(a, top)) && Stacked(k, Top(b, t), live')
      && Reg(a, top) < 255 && Reg(b, t) < 255 && Reg(a, top) as int in Range(0, k) + live' && Reg(b, t) as int in Range(0, k) + live'
      && (Reg(a, top) == Reg(b, t) ==> Reg(b, t) < k) && Reg(b, t) as int !in live
  {
    StackedMore(a, k, top, live, sure);
    StackedMore(b, k, Top(a, top), live + Own(a, top), sure);
  }

  /** Reading a slot: the object and the key are given up. */
  lemma PutIndex(z: Start, s: seq<Item>, k: nat, live: set<int>, live': set<int>, top: nat, o: nat, key: nat)
    requires InOrder(z, s, k, live') && live <= live' && k <= top < 255 && o < 255 && key < 255
    requires o as int in Range(0, k) + live' && key as int in Range(0, k) + live' && (o == key ==> key < k) && key as int !in live
    ensures InOrder(z, s + Issue(Make(GET, top, o, key, 0), k), k, live + {top as int})
  {
    hide InOrder;
    PutGet(z, s, k, live', Make(GET, top, o, key, 0), live + {top as int});
  }

  lemma {:induction false} IndexReady(z: Start, s: seq<Item>, e: Expr, k: nat, top: nat, live: set<int>)
    requires e.Index? && InOrder(z, s, k, live) && Fitting(e, k, top, z.pact.sure) && Stacked(k, top, live)
    ensures InOrder(z, s + Acts(e, k, top), k, live + Own(e, top))
    decreases e, 0
  {
    var t, a, b := Top(e.obj, top), Acts(e.obj, k, top), Acts(e.key, k, Top(e.obj, top));
    var i := Make(GET, top, Reg(e.obj, top), Reg(e.key, t), 0);
    assert Acts(e, k, top) == a + b + Issue(i, k) && Own(e, top) == {top as int} && k <= top < 255;
    assert Fitting(e.obj, k, top, z.pact.sure) && Fitting(e.key, k, t, z.pact.sure);
    hide InOrder, Fitting, Acts, Own, Stacked, Issue, Make;
    PairStacked(e.obj, e.key, k, top, live, z.pact.sure);
    ExprReady(z, s, e.obj, k, top, live);
    ExprReady(z, s + a, e.key, k, t, live + Own(e.obj, top));
    PutIndex(z, s + a + b, k, live, live + Own(e.obj, top) + Own(e.key, t), top, Reg(e.obj, top), Reg(e.key, t));
    Assoc3(s, a, b, Issue(i, k));
  }

  /** A binary operator: both operands are given up. */
  lemma PutBin(z: Start, s: seq<Item>, k: nat, live: set<int>, live': set<int>, top: nat, op: Op, kind: Byte, l: nat, r: nat)
    requires InOrder(z, s, k, live') && live <= live' && k <= top < 255 && l < 255 && r < 255
    requires op in {ADD, SUB, MUL, DIV, MOD, BITW, EQ, NE, CMP} && (op == MOD ==> z.pact.sure) && (op in {EQ, NE} ==> kind == 0)
    requires l as int in Range(0, k) + live' && r as int in Range(0, k) + live' && (l == r ==> r < k) && r as int !in live
    ensures InOrder(z, s + Issue(Make(op, top, r, l, kind), k), k, live + {top as int})
  {
    hide InOrder;
    var i := Make(op, top, r, l, kind);
    if op in {EQ, NE} {
      PutEqual(z, s, k, live', i, live + {top as int});
    } else {
      PutUnmerged(z, s, k, live', i, live + {top as int});
    }
  }

  lemma {:induction false} BinReady(z: Start, s: seq<Item>, e: Expr, k: nat, top: nat, live: set<int>)
    requires e.Bin? && InOrder(z, s, k, live) && Fitting(e, k, top, z.pact.sure) && Stacked(k, top, live)
    ensures InOrder(z, s + Acts(e, k, top), k, live + Own(e, top))
    decreases e, 0
  {
    var t, a, b := Top(e.left, top), Acts(e.left, k, top), Acts(e.right, k, Top(e.left, top));
    var i := Make(e.op, top, Reg(e.right, t), Reg(e.left, top), e.kind);
    assert Acts(e, k, top) == a + b + Issue(i, k) && Own(e, top) == {top as int} && k <= top < 255;
    assert Fitting(e.left, k, top, z.pact.sure) && Fitting(e.right, k, t, z.pact.sure);
    assert e.op in {ADD, SUB, MUL, DIV, MOD, BITW, EQ, NE, CMP} && (e.op == MOD ==> z.pact.sure) && (e.op in {EQ, NE} ==> e.kind == 0);
    hide InOrder, Fitting, Acts, Own, Stacked, Issue, Make;
    PairStacked(e.left, e.right, k, top, live, z.pact.sure);
    ExprReady(z, s, e.left, k, top, live);
    ExprReady(z, s + a, e.right, k, t, live + Own(e.left, top));
    var live' := live + Own(e.left, top) + Own(e.right, t);
    PutBin(z, s + a + b, k, live, live', top, e.op, e.kind, Reg(e.left, top), Reg(e.right, t));
    Assoc3(s, a, b, Issue(i, k));
  }

  lemma ReadyLess(z: Start, s: seq<Item>, k: nat, live: set<int>, live': set<int>)
    requires InOrder(z, s, k, live) && live' <= live
    ensures InOrder(z, s, k, live')
  {
  }

  /** What an assignment does with its value in register r. */
  function Assigning(e: Expr, k: nat, top: nat, r: nat): seq<Item> {
    match e
    case AssignLocal(x, _) => Issue(Make(MOVE, x, r, 0, 0), k)
    case Compound(op, x, _) => Issue(Make(op, x, r, x, 0), k) + [Snooze]
    case AssignOuter(n, _) => Issue(Make(SETOUTER, top, n, r, 0), k)
    case _ => []
  }

  lemma PutAssigning(z: Start, s: seq<Item>, e: Expr, k: nat, top: nat, live: set<int>, live': set<int>, r: nat)
    requires (e.AssignLocal? || e.Compound? || e.AssignOuter?) && Fitting(e, k, top, z.pact.sure)
    requires InOrder(z, s, k, live') && live <= live' && k <= top <= 255 && r < 255 && r as int in Range(0, k) + live' && r as int !in live
    ensures InOrder(z, s + Assigning(e, k, top, r), k, live + Own(e, top))
  {
    hide InOrder, Make, Issue, Range;
    match e
    case AssignLocal(x, _) =>
      PutLocal(z, s, k, live, live', x, r);
      assert live + {} == live;
    case Compound(op, x, _) =>
      PutCompound(z, s, k, live, live', op, x, r);
      assert live + {} == live;
    case AssignOuter(n, _) => PutOuter(z, s, k, live, live', top, n, r);
  }

  lemma PutLocal(z: Start, s: seq<Item>, k: nat, live: set<int>, live': set<int>, x: nat, r: nat)
    requires InOrder(z, s, k, live') && live <= live' && x < k <= 255 && r < 255 && r as int in Range(0, k) + live' && r as int !in live
    ensures InOrder(z, s + Issue(Make(MOVE, x, r, 0, 0), k), k, live)
  {
    hide InOrder;
    PutMove(z, s, k, live', Make(MOVE, x, r, 0, 0), live);
  }

  lemma PutCompound(z: Start, s: seq<Item>, k: nat, live: set<int>, live': set<int>, op: Op, x: nat, r: nat)
    requires InOrder(z, s, k, live') && live <= live' && op in {ADD, SUB, MUL, DIV, MOD}
    requires x < k <= 255 && r < 255 && r as int in Range(0, k) + live'
    ensures InOrder(z, s + (Issue(Make(op, x, r, x, 0), k) + [Snooze]), k, live)
  {
    hide InOrder;
    var i := Make(op, x, r, x, 0);
    PutInPlace(z, s, k, live', i);
    ReadyLess(z, s + Issue(i, k) + [Snooze], k, live', live);
    assert s + (Issue(i, k) + [Snooze]) == s + Issue(i, k) + [Snooze];
  }

  lemma PutOuter(z: Start, s: seq<Item>, k: nat, live: set<int>, live': set<int>, top: nat, n: int, r: nat)
    requires InOrder(z, s, k, live') && live <= live' && k <= top < 255 && r < 255 && r as int in Range(0, k) + live'
    ensures InOrder(z, s + Issue(Make(SETOUTER, top, n, r, 0), k), k, live + {top as int})
  {
    hide InOrder;
    PutUnmerged(z, s, k, live', Make(SETOUTER, top, n, r, 0), live + {top as int});
  }

  lemma {:induction false} AssignReady(z: Start, s: seq<Item>, e: Expr, k: nat, top: nat, live: set<int>)
    requires (e.AssignLocal? || e.Compound? || e.AssignOuter?)
    requires InOrder(z, s, k, live) && Fitting(e, k, top, z.pact.sure) && Stacked(k, top, live)
    ensures InOrder(z, s + Acts(e, k, top), k, live + Own(e, top))
    decreases e, 0
  {
    var a, r := Acts(e.value, k, top), Reg(e.value, top);
    AssignActs(e, k, top);
    assert Fitting(e.value, k, top, z.pact.sure);
    StackedMore(e.value, k, top, live, z.pact.sure);
    assert r as int !in live && k <= top <= 255;
    hide InOrder, Fitting, Acts, Assigning, Own, Stacked;
    ExprReady(z, s, e.value, k, top, live);
    PutAssigning(z, s + a, e, k, top, live, live + Own(e.value, top), r);
    assert s + (a + Assigning(e, k, top, r)) == s + a + Assigning(e, k, top, r);
  }

  lemma AssignActs(e: Expr, k: nat, top: nat)
    requires e.AssignLocal? || e.Compound? || e.AssignOuter?
    ensures Acts(e, k, top) == Acts(e.value, k, top) + Assigning(e, k, top, Reg(e.value, top))
  {
    if e.Compound? {
      var a, p := Acts(e.value, k, top), Issue(Make(e.op, e.x, Reg(e.value, top), e.x, 0), k);
      assert a + p + [Snooze] == a + (p + [Snooze]);
    }
  }

  /** Writing a slot: object, key and value are given up. */
  lemma PutSet(z: Start, s: seq<Item>, k: nat, live: set<int>, live': set<int>, top: nat, op: Op, o: nat, key: nat, v: nat)
    requires InOrder(z, s, k, live') && live <= live' && k <= top < 255 && o < 255 && key < 255 && v < 255 && op in {SET, NEWSLOT}
    requires o as int in Range(0, k) + live' && key as int in Range(0, k) + live' && v as int in Range(0, k) + live'
    ensures InOrder(z, s + Issue(Make(op, top, o, key, v), k), k, live + {top as int})
  {
    hide InOrder;
    PutUnmerged(z, s, k, live', Make(op, top, o, key, v), live + {top as int});
  }

  lemma {:induction false} SetReady(z: Start, s: seq<Item>, e: Expr, k: nat, top: nat, live: set<int>)
    requires e.SetSlot? && InOrder(z, s, k, live) && Fitting(e, k, top, z.pact.sure) && Stacked(k, top, live)
    ensures InOrder(z, s + Acts(e, k, top), k, live + Own(e, top))
    decreases e, 0
  {
    var t := Top(e.obj, top);
    var u := Top(e.key, t);
    var a, b, c := Acts(e.obj, k, top), Acts(e.key, k, t), Acts(e.value, k, u);
    var i := Make(e.op, top, Reg(e.obj, top), Reg(e.key, t), Reg(e.value, u));
    assert Acts(e, k, top) == a + b + c + Issue(i, k) && Own(e, top) == {top as int} && k <= top < 255;
    assert Fitting(e.obj, k, top, z.pact.sure) && Fitting(e.key, k, t, z.pact.sure) && Fitting(e.value, k, u, z.pact.sure);
    assert e.op in {SET, NEWSLOT};
    hide InOrder, Fitting, Acts, Own, Stacked, Issue, Make, Top, Reg;
    var live1 := live + Own(e.obj, top);
    var live2 := live1 + Own(e.key, t);
    PairStacked(e.obj, e.key, k, top, live, z.pact.sure);
    StackedMore(e.value, k, u, live2, z.pact.sure);
    ExprReady(z, s, e.obj, k, top, live);
    ExprReady(z, s + a, e.key, k, t, live1);
    ExprReady(z, s + a + b, e.value, k, u, live2);
    PutSet(z, s + a + b + c, k, live, live2 + Own(e.value, u), top, e.op, Reg(e.obj, top), Reg(e.key, t), Reg(e.value, u));
    Assoc4(s, a, b, c, Issue(i, k));
  }

  lemma {:induction false} CommaReady(z: Start, s: seq<Item>, e: Expr, k: nat, top: nat, live: set<int>)
    requires e.Comma? && InOrder(z, s, k, live) && Fitting(e, k, top, z.pact.sure) && Stacked(k, top, live)
    ensures InOrder(z, s + Acts(e, k, top), k, live + Own(e, top))
    decreases e, 0
  {
    hide InOrder;
    var a, b := Acts(e.first, k, top), Acts(e.second, k, top);
    ExprReady(z, s, e.first, k, top, live);
    ReadyLess(z, s + a, k, live + Own(e.first, top), live);
    ExprReady(z, s + a, e.second, k, top, live);
    assert s + (a + b) == s + a + b;
  }

  // ----- calls -----

  lemma {:induction false} ArgReady(z: Start, s: seq<Item>, e: Expr, k: nat, top: nat, live: set<int>)
    requires InOrder(z, s, k, live) && Fitting(e, k, top, z.pact.sure) && Stacked(k, top, live) && top < 255
    ensures InOrder(z, s + ArgAct(e, k, top), k, live + {top as int})
    decreases e, 2
  {
    hide InOrder, Fitting, Acts;
    var a := Acts(e, k, top);
    StackedMore(e, k, top, live, z.pact.sure);
    ExprReady(z, s, e, k, top, live);
    if InLocal(e) {
      var i := Make(MOVE, top, Reg(e, top), 0, 0);
      PutMove(z, s + a, k, live + {}, i, live + {top as int});
      assert s + (a + Issue(i, k)) == s + a + Issue(i, k);
    } else {
      assert s + (a + []) == s + a;
    }
  }

  lemma {:induction false} ArgsReady(z: Start, s: seq<Item>, args: Args, k: nat, top: nat, live: set<int>)
    requires InOrder(z, s, k, live) && ArgsFit(args, k, top, z.pact.sure) && Stacked(k, top, live)
    ensures InOrder(z, s + ArgActs(args, k, top), k, live + Range(top, top + Count(args))) && top + Count(args) <= 255
    decreases args, 0
  {
    hide InOrder, Fitting, Acts;
    match args
    case NoArgs =>
      assert s + [] == s && live + Range(top, top) == live;
    case More(a, rest) =>
      ArgReady(z, s, a, k, top, live);
      ArgsReady(z, s + ArgAct(a, k, top), rest, k, top + 1, live + {top as int});
      assert s + (ArgAct(a, k, top) + ArgActs(rest, k, top + 1)) == s + ArgAct(a, k, top) + ArgActs(rest, k, top + 1);
      assert live + {top as int} + Range(top + 1, top + 1 + Count(rest)) == live + Range(top, top + Count(args));
  }

  /** The call itself: callee, `this` and the arguments are in place. */
  lemma PutCall(z: Start, s: seq<Item>, k: nat, live: set<int>, live': set<int>, top: nat, f: nat, t: nat, n: nat)
    requires InOrder(z, s, k, live' + Range(t, t + n)) && live <= live' && f as int in Range(0, k) + live'
    requires f < 255 && t + n <= 255 && top < 128 && k <= top
    ensures InOrder(z, s + Issue(Make(CALL, top, f, t, n), k), k, live + {top as int})
  {
    hide InOrder;
    var i := Make(CALL, top, f, t, n);
    assert i == Instr(CALL, top, f, t, n) && Reads(i) == {f as int} + Range(t, t + n);
    PutUnmerged(z, s, k, live' + Range(t, t + n), i, live + {top as int});
  }

  /** `this` goes first. */
  lemma PutThis(z: Start, s: seq<Item>, k: nat, live: set<int>, t: nat)
    requires InOrder(z, s, k, live) && 1 <= k <= t < 255
    ensures InOrder(z, s + Issue(Make(MOVE, t, 0, 0, 0), k), k, live + {t as int})
  {
    hide InOrder;
    PutMove(z, s, k, live, Make(MOVE, t, 0, 0, 0), live + {t as int});
  }

  lemma {:induction false} ArgsRoom(args: Args, k: nat, top: nat, sure: bool)
    requires ArgsFit(args, k, top, sure)
    ensures top + Count(args) <= 255
    decreases args
  {
    if args.More? { ArgsRoom(args.rest, k, top + 1, sure); }
  }

  /** A call is made of its callee, `this`, the arguments and the call itself. */
  lemma CallActs(e: Expr, k: nat, top: nat)
    requires e.Call?
    ensures var t := Top(e.fn, top);
      Acts(e, k, top) == Acts(e.fn, k, top) + Issue(Make(MOVE, t, 0, 0, 0), k) + ArgActs(e.args, k, t + 1)
        + Issue(Make(CALL, top, Reg(e.fn, top), t, Count(e.args) + 1), k)
  {
  }

  lemma CallStacked(e: Expr, k: nat, top: nat, live: set<int>, sure: bool)
    requires e.Call? && Fitting(e, k, top, sure) && Stacked(k, top, live)
    ensures var t := Top(e.fn, top);
      && Fitting(e.fn, k, top, sure) && ArgsFit(e.args, k, t + 1, sure) && 1 <= k <= top < 128 && k <= t < 255
      && Own(e, top) == {top as int} && t + 1 + Count(e.args) <= 255 && Reg(e.fn, top) < 255
      && Stacked(k, t + 1, live + Own(e.fn, top) + {t as int}) && Reg(e.fn, top) as int in Range(0, k) + (live + Own(e.fn, top))
  {
    StackedMore(e.fn, k, top, live, sure);
    ArgsRoom(e.args, k, Top(e.fn, top) + 1, sure);
  }

  lemma {:induction false} CallReady(z: Start, s: seq<Item>, e: Expr, k: nat, top: nat, live: set<int>)
    requires e.Call? && InOrder(z, s, k, live) && Fitting(e, k, top, z.pact.sure) && Stacked(k, top, live)
    ensures InOrder(z, s + Acts(e, k, top), k, live + Own(e, top))
    decreases e, 0
  {
    hide InOrder, Fitting, ArgsFit, Acts, ArgActs, Own, Stacked, Issue, Make, Top, Reg;
    var t, n := Top(e.fn, top), Count(e.args);
    var a, m, c := Acts(e.fn, k, top), Issue(Make(MOVE, t, 0, 0, 0), k), ArgActs(e.args, k, t + 1);
    var live1 := live + Own(e.fn, top);
    CallActs(e, k, top);
    CallStacked(e, k, top, live, z.pact.sure);
    ExprReady(z, s, e.fn, k, top, live);
    PutThis(z, s + a, k, live1, t);
    ArgsReady(z, s + a + m, e.args, k, t + 1, live1 + {t as int});
    OneMore(live1, t, n);
    PutCall(z, s + a + m + c, k, live, live1, top, Reg(e.fn, top), t, n + 1);
    Assoc4(s, a, m, c, Issue(Make(CALL, top, Reg(e.fn, top), t, n + 1), k));
  }

  /** A method is looked up: object and key are given up for the closure and `this`. */
  lemma PutMethod(z: Start, s: seq<Item>, k: nat, live: set<int>, live': set<int>, top: nat, o: nat, key: nat)
    requires InOrder(z, s, k, live') && live <= live' && k <= top < 254 && o < 255 && key < 255
    requires o as int in Range(0, k) + live' && key as int in Range(0, k) + live' && (o == key ==> key < k) && key as int !in live
    ensures InOrder(z, s + Issue(Make(PREPCALL, top, key, o, top + 1), k), k, live + {top as int} + {(top + 1) as int})
  {
    hide InOrder;
    PutPrepcall(z, s, k, live', Make(PREPCALL, top, key, o, top + 1), live + {top as int} + {(top + 1) as int});
  }

  lemma MethodActs(e: Expr, k: nat, top: nat)
    requires e.Method?
    ensures var t := Top(e.obj, top);
      Acts(e, k, top) == Acts(e.obj, k, top) + Acts(e.key, k, t) + Issue(Make(PREPCALL, top, Reg(e.key, t), Reg(e.obj, top), top + 1), k)
        + ArgActs(e.args, k, top + 2) + Issue(Make(CALL, top, top, top + 1, Count(e.args) + 1), k)
  {
  }

  lemma MethodStacked(e: Expr, k: nat, top: nat, live: set<int>, sure: bool)
    requires e.Method? && Fitting(e, k, top, sure) && Stacked(k, top, live)
    ensures var t := Top(e.obj, top);
      && Fitting(e.obj, k, top, sure) && Fitting(e.key, k, t, sure) && ArgsFit(e.args, k, top + 2, sure) && k <= top < 128
      && Own(e, top) == {top as int} && top + 2 + Count(e.args) <= 255
      && Stacked(k, top + 2, live + {top as int} + {(top + 1) as int})
  {
    ArgsRoom(e.args, k, top + 2, sure);
  }

  lemma {:induction false} MethodReady(z: Start, s: seq<Item>, e: Expr, k: nat, top: nat, live: set<int>)
    requires e.Method? && InOrder(z, s, k, live) && Fitting(e, k, top, z.pact.sure) && Stacked(k, top, live)
    ensures InOrder(z, s + Acts(e, k, top), k, live + Own(e, top))
    decreases e, 0
  {
    hide InOrder, Fitting, ArgsFit, Acts, ArgActs, Own, Stacked, Issue, Make, Top, Reg;
    var t, n := Top(e.obj, top), Count(e.args);
    var a, b, c := Acts(e.obj, k, top), Acts(e.key, k, t), ArgActs(e.args, k, top + 2);
    var m := Issue(Make(PREPCALL, top, Reg(e.key, t), Reg(e.obj, top), top + 1), k);
    var live1 := live + {top as int};
    MethodActs(e, k, top);
    MethodStacked(e, k, top, live, z.pact.sure);
    PairStacked(e.obj, e.key, k, top, live, z.pact.sure);
    ExprReady(z, s, e.obj, k, top, live);
    ExprReady(z, s + a, e.key, k, t, live + Own(e.obj, top));
    PutMethod(z, s + a + b, k, live, live + Own(e.obj, top) + Own(e.key, t), top, Reg(e.obj, top), Reg(e.key, t));
    ArgsReady(z, s + a + b + m, e.args, k, top + 2, live1 + {(top + 1) as int});
    OneMore(live1, top + 1, n);
    PutCall(z, s + a + b + m + c, k, live, live1, top, top, top + 1, n + 1);
    Assoc5(s, a, b, m, c, Issue(Make(CALL, top, top, top + 1, n + 1), k));
  }

  // ----- what stands last -----

  /** An expression that needs no instruction. */
  predicate Silent(e: Expr) { e.Local? || (e.Comma? && Silent(e.first) && Silent(e.second)) }

  /** The last instruction of the expression is a comparison, or a call. */
  predicate Ends(e: Expr, op: Op) {
    match e
    case Bin(o, _, _, _) => o == op
    case Call(_, _) => op == CALL
    case Method(_, _, _) => op == CALL
    case Comma(a, b) => if Silent(b) then Ends(a, op) else Ends(b, op)
    case _ => false
  }

  /** The value is a variable named behind a comma, and the last instruction is one of `op` for what stood before. */
  predicate Dangles(e: Expr, op: Op) {
    e.Comma? && if Silent(e.second) then Ends(e.first, op) else Dangles(e.second, op)
  }

  lemma {:induction false} SilentActs(e: Expr, k: nat, top: nat)
    requires Silent(e)
    ensures Acts(e, k, top) == [] && InLocal(e)
    decreases e
  {
    if e.Comma? {
      SilentActs(e.first, k, top);
      SilentActs(e.second, k, top);
    }
  }

  /** What the optimizer may look at: a comparison or a call into register t, or neither. */
  predicate Shows(b: Buf, op: Op, t: int) { b.opt && b.code != [] && Last(b.code).op == op && Last(b.code).a0 == t }

  predicate ShowsNo(b: Buf, op: Op) { b.code != [] && (b.opt ==> Last(b.code).op != op) }

  lemma LastPut(z: Start, s: seq<Item>, i: Instr, k: nat, op: Op)
    requires op in {CMP, CALL} && i.op !in {JZ, RETURN, TAILCALL, JCMP}
    ensures i.op == op ==> Shows(CodeFrom(z, s + Issue(i, k)), op, i.a0)
    ensures i.op != op ==> ShowsNo(CodeFrom(z, s + Issue(i, k)), op)
    ensures i.op == op && CodeFrom(z, s).code != [] ==> |CodeFrom(z, s + Issue(i, k)).code| >= 2
  {
    hide Fuse, AddInstruction, Shows, ShowsNo;
    FuseSnoc(s, Issue(i, k)[0], z.opt, z.parent);
    LastAdded(CodeFrom(z, s), i, Range(0, k), z.parent, op);
  }

  lemma LastAdded(b: Buf, i: Instr, locals: set<int>, parent: bool, op: Op)
    requires op in {CMP, CALL} && i.op !in {JZ, RETURN, TAILCALL, JCMP}
    ensures i.op == op ==> Shows(AddInstruction(b, i, locals, parent, 0), op, i.a0)
    ensures i.op != op ==> ShowsNo(AddInstruction(b, i, locals, parent, 0), op)
    ensures i.op == op && b.code != [] ==> |AddInstruction(b, i, locals, parent, 0).code| >= 2
  {
    hide Merge;
    if b.opt && b.code != [] { MergedOp(Last(b.code), i, locals); }
  }

  lemma MergedOp(p: Instr, i: Instr, locals: set<int>)
    requires i.op !in {JZ, RETURN, TAILCALL, JCMP}
    ensures i.op in {CMP, CALL} ==> Merge(p, i, locals).None?
    ensures Merge(p, i, locals).Some? && !Retargets(p, i) ==> Merge(p, i, locals).value.op !in {CMP, CALL}
  {
  }

  lemma {:induction false} CodeStays(z: Start, s: seq<Item>, x: seq<Item>)
    requires CodeFrom(z, s).code != []
    ensures CodeFrom(z, s + x).code != []
    decreases |x|
  {
    hide Fuse, AddInstruction;
    if x == [] {
      assert s + x == s;
    } else {
      var before, last := x[..|x| - 1], x[|x| - 1];
      CodeStays(z, s, before);
      assert s + x == (s + before) + [last];
      FuseSnoc(s + before, last, z.opt, z.parent);
    }
  }

  lemma PutStays(z: Start, s: seq<Item>, i: Instr, k: nat)
    ensures CodeFrom(z, s + Issue(i, k)).code != []
  {
    hide Fuse, Merge;
    FuseSnoc(s, Issue(i, k)[0], z.opt, z.parent);
  }

  /** All but the last instruction. */
  function Front(e: Expr, k: nat, top: nat): seq<Item> {
    match e
    case Index(o, key) => Acts(o, k, top) + Acts(key, k, Top(o, top))
    case Bin(_, _, l, r) => Acts(l, k, top) + Acts(r, k, Top(l, top))
    case AssignLocal(_, v) => Acts(v, k, top)
    case Compound(_, _, v) => Acts(v, k, top)
    case AssignOuter(_, v) => Acts(v, k, top)
    case SetSlot(_, o, key, v) => Acts(o, k, top) + Acts(key, k, Top(o, top)) + Acts(v, k, Top(key, Top(o, top)))
    case Call(f, args) => Acts(f, k, top) + Issue(Make(MOVE, Top(f, top), 0, 0, 0), k) + ArgActs(args, k, Top(f, top) + 1)
    case Method(o, key, args) =>
      Acts(o, k, top) + Acts(key, k, Top(o, top)) + Issue(Make(PREPCALL, top, Reg(key, Top(o, top)), Reg(o, top), top + 1), k)
      + ArgActs(args, k, top + 2)
    case _ => []
  }

  /** The last instruction of an expression that is no comma. */
  function Final(e: Expr, top: nat): Instr {
    match e
    case GetOuter(n) => Make(GETOUTER, top, n, 0, 0)
    case Lit(op, n) => Make(op, top, n, 0, 0)
    case Null => Make(LOADNULLS, top, 1, 0, 0)
    case Index(o, key) => Make(GET, top, Reg(o, top), Reg(key, Top(o, top)), 0)
    case Bin(op, kind, l, r) => Make(op, top, Reg(r, Top(l, top)), Reg(l, top), kind)
    case AssignLocal(x, v) => Make(MOVE, x, Reg(v, top), 0, 0)
    case Compound(op, x, v) => Make(op, x, Reg(v, top), x, 0)
    case AssignOuter(n, v) => Make(SETOUTER, top, n, Reg(v, top), 0)
    case SetSlot(op, o, key, v) => Make(op, top, Reg(o, top), Reg(key, Top(o, top)), Reg(v, Top(key, Top(o, top))))
    case Call(f, args) => Make(CALL, top, Reg(f, top), Top(f, top), Count(args) + 1)
    case Method(o, key, args) => Make(CALL, top, top, top + 1, Count(args) + 1)
    case _ => Make(MOVE, top, 0, 0, 0)
  }

  lemma SplitActs(e: Expr, k: nat, top: nat)
    requires !e.Local? && !e.Comma?
    ensures Acts(e, k, top) == Front(e, k, top) + Issue(Final(e, top), k) + if e.Compound? then [Snooze] else []
  {
    var p := Issue(Final(e, top), k);
    assert [] + p == p && Front(e, k, top) + p + [] == Front(e, k, top) + p;
  }

  lemma SnoozeShowsNo(z: Start, s: seq<Item>, op: Op)
    requires CodeFrom(z, s).code != []
    ensures ShowsNo(CodeFrom(z, s + [Snooze]), op)
  {
    hide Fuse;
    FuseSnoc(s, Snooze, z.opt, z.parent);
  }

  lemma {:induction false} CallFrontStays(z: Start, s: seq<Item>, e: Expr, k: nat, top: nat)
    requires e.Call? || e.Method?
    ensures CodeFrom(z, s + Front(e, k, top)).code != []
  {
    hide Acts, ArgActs, Issue, Make, CodeFrom;
    match e
    case Call(f, args) =>
      var a, m, c := Acts(f, k, top), Make(MOVE, Top(f, top), 0, 0, 0), ArgActs(args, k, Top(f, top) + 1);
      PutStays(z, s + a, m, k);
      CodeStays(z, s + a + Issue(m, k), c);
      Assoc3(s, a, Issue(m, k), c);
    case Method(o, key, args) =>
      var t := Top(o, top);
      var a, b, c := Acts(o, k, top), Acts(key, k, t), ArgActs(args, k, top + 2);
      var m := Make(PREPCALL, top, Reg(key, t), Reg(o, top), top + 1);
      PutStays(z, s + a + b, m, k);
      CodeStays(z, s + a + b + Issue(m, k), c);
      Assoc4(s, a, b, Issue(m, k), c);
  }

  /** After any expression that emits something, the optimizer sees a comparison or a call exactly when the
      expression ends with one, and then it stands in the register a temporary value would take. */
  lemma {:induction false} EndsLast(z: Start, s: seq<Item>, e: Expr, k: nat, top: nat, sure: bool, op: Op)
    requires !Silent(e) && Fitting(e, k, top, sure) && op in {CMP, CALL} && top <= 255
    ensures var b := CodeFrom(z, s + Acts(e, k, top));
      if Ends(e, op) then Shows(b, op, top) && (op == CALL ==> |b.code| >= 2) else ShowsNo(b, op)
    decreases e
  {
    hide Acts, CodeFrom, Front, ArgsFit;
    if e.Comma? {
      CommaLast(z, s, e, k, top, sure, op);
    } else {
      var f, i := Front(e, k, top), Final(e, top);
      SplitActs(e, k, top);
      FinalOp(e, k, top, sure);
      LastPut(z, s + f, i, k, op);
      if e.Call? || e.Method? { CallFrontStays(z, s, e, k, top); }
      assert s + (f + Issue(i, k)) == s + f + Issue(i, k);
      if e.Compound? {
        PutStays(z, s + f, i, k);
        SnoozeShowsNo(z, s + f + Issue(i, k), op);
        assert s + (f + Issue(i, k) + [Snooze]) == s + f + Issue(i, k) + [Snooze];
      } else {
        assert f + Issue(i, k) + [] == f + Issue(i, k);
      }
    }
  }

  lemma FinalOp(e: Expr, k: nat, top: nat, sure: bool)
    requires !e.Local? && !e.Comma? && Fitting(e, k, top, sure)
    ensures var i := Final(e, top);
      && i.op !in {JZ, RETURN, TAILCALL, JCMP}
      && (i.op == CMP <==> Ends(e, CMP)) && (i.op == CALL <==> Ends(e, CALL))
      && (i.op in {CMP, CALL} ==> i.a0 as int == top)
  {
    hide ArgsFit;
  }

  lemma {:induction false} CommaLast(z: Start, s: seq<Item>, e: Expr, k: nat, top: nat, sure: bool, op: Op)
    requires e.Comma? && !Silent(e) && Fitting(e, k, top, sure) && op in {CMP, CALL} && top <= 255
    ensures var b := CodeFrom(z, s + Acts(e, k, top));
      if Ends(e, op) then Shows(b, op, top) && (op == CALL ==> |b.code| >= 2) else ShowsNo(b, op)
    decreases e, 0
  {
    hide CodeFrom;
    var a, b := Acts(e.first, k, top), Acts(e.second, k, top);
    if Silent(e.second) {
      SilentActs(e.second, k, top);
      EndsLast(z, s, e.first, k, top, sure, op);
      assert a + [] == a;
    } else {
      EndsLast(z, s + a, e.second, k, top, sure, op);
      assert s + (a + b) == s + a + b;
    }
  }

  /** An expression that ends with a comparison or a call has its value there unless it dangles. */
  lemma {:induction false} DanglesExactly(e: Expr, top: nat, op: Op)
    requires !Silent(e) && op in {CMP, CALL}
    ensures Dangles(e, op) ==> Ends(e, op) && InLocal(e)
    ensures Ends(e, op) && !Dangles(e, op) ==> !InLocal(e) && Reg(e, top) == top
    decreases e
  {
    if e.Comma? {
      if Silent(e.second) { SilentActs(e.second, 0, 0); } else { DanglesExactly(e.second, top, op); }
    }
  }
}
