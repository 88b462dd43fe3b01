/** The virtual machine running generated code agrees with the meaning of the
    structured source, with the peephole optimizer on. */
module Simulation {
  import opened Common
  import opened Bytecode
  import opened Peephole
  import opened Codegen

  // ----- the machine -----

  /** A frame is at an instruction, or it has ended. */
  datatype Config<!V, !W> = At(pc: int, st: State<V, W>) | End(h: Halt<V, W>)

  /** One step; the program counter moves past the instruction before a jump is added. */
  function Step<V, W>(env: Env<V, W>, prog: seq<Instr>, c: Config<V, W>): Config<V, W> {
    if c.End? || !(0 <= c.pc < |prog|) then c
    else
      match Exec(env, prog[c.pc], c.st)
      case Go(jump, s) => At(c.pc + 1 + (if jump then prog[c.pc].a1 else 0), s)
      case Stop(h) => End(h)
  }

  function Run<V, W>(env: Env<V, W>, prog: seq<Instr>, c: Config<V, W>, k: nat): Config<V, W>
    decreases k
  {
    if k == 0 then c else Run(env, prog, Step(env, prog, c), k - 1)
  }

  lemma RunPlus<V, W>(env: Env<V, W>, prog: seq<Instr>, c: Config<V, W>, j: nat, k: nat)
    ensures Run(env, prog, c, j + k) == Run(env, prog, Run(env, prog, c, j), k)
    decreases j
  {
    if j > 0 { RunPlus(env, prog, Step(env, prog, c), j - 1, k); }
  }

  // ----- code in place -----

  function Resolved(cell: Cell, pos: int, brk: int, cont: int): Instr {
    match cell
    case Ready(i) => i
    case BreakHole => Jump(brk - pos)
    case ContinueHole => Jump(cont - pos)
  }

  /** The cells stand at position p, with a break going to just after brk and a continue to just after cont. */
  ghost predicate Fits(prog: seq<Instr>, p: int, cells: seq<Cell>, brk: int, cont: int) {
    0 <= p && p + |cells| <= |prog| && forall j :: p <= j < p + |cells| ==> prog[j] == Resolved(cells[j - p], j, brk, cont)
  }

  lemma FitsSplit(prog: seq<Instr>, p: int, a: seq<Cell>, b: seq<Cell>, brk: int, cont: int)
    requires Fits(prog, p, a + b, brk, cont)
    ensures Fits(prog, p, a, brk, cont) && Fits(prog, p + |a|, b, brk, cont)
  {
  }

  lemma FitsClosed(prog: seq<Instr>, p: int, body: seq<Cell>, brk: int, cont: int, brk': int, cont': int)
    requires Fits(prog, p, Close(body, brk, cont), brk', cont')
    ensures Fits(prog, p, body, p + brk, p + cont)
  {
  }

  lemma FitsCells(prog: seq<Instr>, p: int, code: seq<Instr>, brk: int, cont: int)
    requires Fits(prog, p, Cells(code), brk, cont)
    ensures 0 <= p && p + |code| <= |prog| && prog[p..p + |code|] == code
  {
  }

  lemma FitsIf(prog: seq<Instr>, p: int, T: seq<Instr>, G: seq<Cell>, brk: int, cont: int)
    requires T != [] && Fits(prog, p, LayIf(T, G), brk, cont)
    ensures 0 <= p && p + |T| <= |prog| && prog[p..p + |T|] == Patch(T, |G|)
    ensures Fits(prog, p + |T|, G, brk, cont) && |LayIf(T, G)| == |T| + |G|
  {
    FitsSplit(prog, p, Cells(Patch(T, |G|)), G, brk, cont);
    FitsCells(prog, p, Patch(T, |G|), brk, cont);
  }

  lemma FitsIfElse(prog: seq<Instr>, p: int, T: seq<Instr>, G: seq<Cell>, E: seq<Cell>, brk: int, cont: int)
    requires T != [] && Fits(prog, p, LayIfElse(T, G, E), brk, cont)
    ensures 0 <= p && p + |T| + |G| < |prog| && prog[p..p + |T|] == Patch(T, |G| + 1) && prog[p + |T| + |G|] == Jump(|E|)
    ensures Fits(prog, p + |T|, G, brk, cont) && Fits(prog, p + |T| + |G| + 1, E, brk, cont)
    ensures |LayIfElse(T, G, E)| == |T| + |G| + 1 + |E|
  {
    var J := [Cell.Ready(Jump(|E|))];
    FitsSplit(prog, p, Cells(Patch(T, |G| + 1)), G + (J + E), brk, cont);
    FitsSplit(prog, p + |T|, G, J + E, brk, cont);
    FitsSplit(prog, p + |T| + |G|, J, E, brk, cont);
    FitsCells(prog, p, Patch(T, |G| + 1), brk, cont);
  }

  lemma FitsLogic(prog: seq<Instr>, p: int, isAnd: bool, trg: Byte, f: Byte, R: seq<Cell>, brk: int, cont: int)
    requires Fits(prog, p, LayLogic(isAnd, trg, f, R), brk, cont)
    ensures 0 <= p < |prog| && prog[p] == Instr(if isAnd then AND else OR, trg, |R|, f, 0)
    ensures Fits(prog, p + 1, R, brk, cont) && |LayLogic(isAnd, trg, f, R)| == 1 + |R|
  {
    FitsSplit(prog, p, [Cell.Ready(Instr(if isAnd then AND else OR, trg, |R|, f, 0))], R, brk, cont);
  }

  lemma FitsWhile(prog: seq<Instr>, p: int, P: seq<Cell>, T: seq<Instr>, B: seq<Cell>, brk: int, cont: int)
    requires T != [] && Fits(prog, p, LayWhile(P, T, B), brk, cont)
    ensures 0 <= p < |prog|
    ensures var q := p + |P| + |T|;
      && Fits(prog, p, P, brk, cont) && Fits(prog, p + |P|, Cells(Patch(T, |B| + 1)), brk, cont)
      && Fits(prog, q, B, q + |B|, p - 1)
      && 0 <= q + |B| < |prog| && prog[q + |B|] == Jump(p - 1 - (q + |B|)) && |LayWhile(P, T, B)| == |P| + |T| + |B| + 1
  {
    var J, C := [Cell.Ready(Jump(-1 - |P| - |T| - |B|))], Close(B, |B|, -1 - |P| - |T|);
    FitsSplit(prog, p, P, Cells(Patch(T, |B| + 1)) + (C + J), brk, cont);
    FitsSplit(prog, p + |P|, Cells(Patch(T, |B| + 1)), C + J, brk, cont);
    FitsSplit(prog, p + |P| + |T|, C, J, brk, cont);
    FitsClosed(prog, p + |P| + |T|, B, |B|, -1 - |P| - |T|, brk, cont);
  }

  lemma FitsDoWhile(prog: seq<Instr>, p: int, B: seq<Cell>, P: seq<Cell>, T: seq<Instr>, brk: int, cont: int)
    requires T != [] && Fits(prog, p, LayDoWhile(B, P, T), brk, cont)
    ensures 0 <= p < |prog|
    ensures var q := p + |B|;
      var end := q + |P| + |T|;
      && Fits(prog, p, B, end, q - 1) && Fits(prog, q, P, brk, cont) && Fits(prog, q + |P|, Cells(Patch(T, 1)), brk, cont)
      && 0 <= end < |prog| && prog[end] == Jump(p - 1 - end) && |LayDoWhile(B, P, T)| == |P| + |T| + |B| + 1
  {
    var J, C := [Cell.Ready(Jump(-1 - |P| - |T| - |B|))], Close(B, |B| + |P| + |T|, |B| - 1);
    FitsSplit(prog, p, C, P + (Cells(Patch(T, 1)) + J), brk, cont);
    FitsSplit(prog, p + |B|, P, Cells(Patch(T, 1)) + J, brk, cont);
    FitsSplit(prog, p + |B| + |P|, Cells(Patch(T, 1)), J, brk, cont);
    FitsClosed(prog, p, B, |B| + |P| + |T|, |B| - 1, brk, cont);
  }

  lemma FitsForever(prog: seq<Instr>, q: int, B: seq<Cell>, I: seq<Instr>, head: nat, brk: int, cont: int)
    requires Fits(prog, q, LayForever(B, I, head), brk, cont)
    ensures 0 <= q < |prog|
    ensures var m := q + |B|;
      var end := m + |I|;
      && Fits(prog, q, B, end, m - 1) && 0 <= m && end < |prog| && prog[m..end] == I
      && prog[end] == Jump(q - head - 1 - end) && |LayForever(B, I, head)| == |B| + |I| + 1
  {
    var J, C := [Cell.Ready(Jump(-1 - head - |B| - |I|))], Close(B, |B| + |I|, |B| - 1);
    FitsSplit(prog, q, C, Cells(I) + J, brk, cont);
    FitsSplit(prog, q + |B|, Cells(I), J, brk, cont);
    FitsClosed(prog, q, B, |B| + |I|, |B| - 1, brk, cont);
    FitsCells(prog, q + |B|, I, brk, cont);
  }

  lemma FitsFor(prog: seq<Instr>, p: int, P: seq<Cell>, T: seq<Instr>, B: seq<Cell>, I: seq<Instr>, brk: int, cont: int, first: bool)
    requires T != [] && Fits(prog, p, LayFor(first, P, T, B, I), brk, cont) && !(first && |P| + |T| == 1)
    ensures 0 <= p < |prog|
    ensures && Fits(prog, p, P, brk, cont) && Fits(prog, p + |P|, Cells(Patch(T, |B| + |I| + 1)), brk, cont)
            && Fits(prog, p + |P| + |T|, LayForever(B, I, |P| + |T|), brk, cont)
            && |LayFor(first, P, T, B, I)| == |P| + |T| + |B| + |I| + 1
  {
    FitsSplit(prog, p, P, Cells(Patch(T, |B| + |I| + 1)) + LayForever(B, I, |P| + |T|), brk, cont);
    FitsSplit(prog, p + |P|, Cells(Patch(T, |B| + |I| + 1)), LayForever(B, I, |P| + |T|), brk, cont);
  }

  // ----- straight-line code -----

  ghost predicate Straight(code: seq<Instr>) {
    forall i :: 0 <= i < |code| ==> !IsJump(code[i].op)
  }

  ghost predicate StraightItems(items: seq<Item>) {
    forall i :: 0 <= i < |items| && items[i].Emit? ==> !IsJump(items[i].i.op)
  }

  lemma NoJump<V, W>(env: Env<V, W>, i: Instr, s: State<V, W>)
    requires !IsJump(i.op)
    ensures Exec(env, i, s).Go? ==> !Exec(env, i, s).jump
  {
  }

  /** The machine runs straight-line code, up to a jump that only its last instruction may take. */
  lemma {:induction false} RunsLine<V, W>(env: Env<V, W>, prog: seq<Instr>, p: int, code: seq<Instr>, s: State<V, W>)
    requires 0 <= p && p + |code| <= |prog| && prog[p..p + |code|] == code
    requires code != [] ==> Straight(code[..|code| - 1])
    ensures Run(env, prog, At(p, s), |code|) ==
      match RunLine(env, code, s)
      case Stop(h) => End(h)
      case Go(jump, s') => At(p + |code| + (if jump && code != [] then Last(code).a1 else 0), s')
    decreases |code|
  {
    hide Exec;
    if code != [] {
      var n := |code| - 1;
      var before := code[..n];
      assert prog[p..p + n] == before;
      RunsLine(env, prog, p, before, s);
      if n > 0 {
        assert before[n - 1] == code[n - 1];
        match RunLine(env, before[..n - 1], s)
        case Stop(_) =>
        case Go(_, s') => NoJump(env, code[n - 1], s');
      }
      RunPlus(env, prog, At(p, s), n, 1);
      assert prog[p + n] == code[n];
    }
  }

  lemma {:induction false} FuseStraight(items: seq<Item>, opt: bool, parent: bool)
    requires StraightItems(items)
    ensures Straight(Fuse(items, opt, parent).code)
    decreases |items|
  {
    if items != [] {
      var before, last := items[..|items| - 1], items[|items| - 1];
      var b := Fuse(before, opt, parent);
      assert forall i :: 0 <= i < |before| ==> before[i] == items[i];
      FuseStraight(before, opt, parent);
      if last.Emit? { AddStraight(b, last.i, last.locals, parent, last.retStart); }
    }
  }

  lemma AddStraight(b: Buf, i: Instr, locals: set<int>, parent: bool, retStart: int)
    requires Straight(b.code)
    ensures !IsJump(i.op) ==> Straight(AddInstruction(b, i, locals, parent, retStart).code)
    ensures i.op == JZ ==>
      var code := AddInstruction(b, i, locals, parent, retStart).code;
      Straight(code[..|code| - 1]) && Last(code).op in {JZ, JCMP}
  {
    hide Merge;
    if b.code != [] {
      assert !IsJump(Last(b.code).op);
      if Merge(Last(b.code), i, locals).Some? { MergeOps(Last(b.code), i, locals); }
    }
  }

  lemma MergeOps(p: Instr, i: Instr, locals: set<int>)
    requires !IsJump(p.op) && Merge(p, i, locals).Some?
    ensures i.op == JZ ==> Merge(p, i, locals).value.op == JCMP
    ensures !IsJump(i.op) ==> !IsJump(Merge(p, i, locals).value.op)
  {
  }

  /** Test code is straight-line up to its last instruction, a conditional jump. */
  lemma TestShape(test: seq<Item>, r: Byte, opt: bool, parent: bool)
    requires StraightItems(test)
    ensures var T := TestCode(test, r, opt, parent);
      Straight(T[..|T| - 1]) && Last(T).op in {JZ, JCMP}
  {
    var items := TestItems(test, r);
    assert items[..|items| - 1] == test;
    FuseStraight(test, opt, parent);
    AddStraight(Fuse(test, opt, parent), Instr(JZ, r, 0, 0, 0), {}, parent, 0);
  }

  /** Patching the jump offset does not change what a conditional jump does. */
  lemma PatchSame<V, W>(env: Env<V, W>, T: seq<Instr>, offset: int, s: State<V, W>)
    requires T != [] && Last(T).op in {JZ, JCMP}
    ensures RunLine(env, Patch(T, offset), s) == RunLine(env, T, s)
  {
    RunReplaced(env, T, Last(T).(a1 := offset), s);
  }

  // ----- the emission discipline of structured code -----

  const ALL: set<int> := set r: int | -128 <= r < 256

  ghost function FlowLine(items: seq<Item>, opt: bool, parent: bool, A: set<int>, pact: Pact): Option<set<int>> {
    if StraightItems(items) then FlowItems(items, opt, parent, A, pact) else None
  }

  ghost function FlowTest(test: seq<Item>, r: Byte, opt: bool, parent: bool, A: set<int>, pact: Pact): Option<set<int>> {
    if StraightItems(test) then FlowItems(TestItems(test, r), opt, parent, A, pact) else None
  }

  /** An increment must be disciplined both when it is first emitted and when it is emitted again. */
  ghost function FlowIncr(incr: seq<Item>, locals: set<int>, parent: bool, A: set<int>, pact: Pact): Option<set<int>> {
    var once := FlowLine(incr, false, parent, A, pact);
    var again := FlowItems(ReEmit(Fuse(incr, false, parent).code, locals), false, parent, ALL, pact);
    if once.Some? && again.Some? then Some(once.value * again.value) else None
  }

  /** Goes on with the registers H at a loop head when they agree. */
  ghost function Narrow(A: Option<set<int>>, H: set<int>): Option<set<int>> {
    if A.Some? && H <= A.value then Some(H) else None
  }

  ghost function Meet(A: Option<set<int>>, B: Option<set<int>>): Option<set<int>> {
    if A.Some? && B.Some? then Some(A.value * B.value) else None
  }

  /** The registers in which the machine agrees with the source after c, or None when c breaks the
      discipline.  `lim` is the number of variables at the head of the enclosing loop. */
  ghost function Flow(c: Code, opt: bool, parent: bool, first: bool, A: set<int>, pact: Pact, lim: Option<nat>): Option<set<int>>
    decreases c, 0
  {
    match c
    case Nil => Some(A)
    case Line(items) => FlowLine(items, opt, parent, A, pact)
    case Seq(a, b) =>
      (match Flow(a, opt, parent, first, A, pact, lim)
       case None => None
       case Some(X) => Flow(b, false, parent, first && Gen(a, opt, parent, first) == [], X, pact, lim))
    case If(test, r, thn) =>
      (match FlowTest(test, r, opt, parent, A, pact)
       case None => None
       case Some(T) => Meet(Some(T), Flow(thn, true, parent, false, T, pact, lim)))
    case IfElse(test, r, thn, els) =>
      (match FlowTest(test, r, opt, parent, A, pact)
       case None => None
       case Some(T) => Meet(Flow(thn, true, parent, false, T, pact, lim), Flow(els, true, parent, false, T, pact, lim)))
    case Logic(_, trg, f, rest) =>
      if f as int !in A then None else Meet(Some(A + {trg as int}), Flow(rest, true, parent, false, A, pact, lim))
    case While(n, pre, test, r, body) =>
      var H := Range(0, n);
      if !(H <= A) then None else
      (match FlowCond(pre, test, r, opt, FlagAfter(pre, opt), parent, first, H, pact)
       case None => None
       case Some(T) => Narrow(Narrow(Flow(body, true, parent, false, T, pact, Some(n)), H), H))
    case DoWhile(n, body, pre, test, r) =>
      var H := Range(0, n);
      if !(H <= A) || Narrow(Flow(body, opt, parent, first, H, pact, Some(n)), H).None? then None
      else Narrow(FlowCond(pre, test, r, false, false, parent, first && Gen(body, opt, parent, first) == [], H, pact), H)
    case For(n, locals, pre, test, r, incr, body) =>
      var H := Range(0, n);
      if !(H <= A) || (first && |Gen(pre, false, parent, first)| + |TestCode(test, r, false, parent)| == 1) then None else
      (match FlowCond(pre, test, r, false, false, parent, first, H, pact)
       case None => None
       case Some(T) =>
         if Narrow(Flow(body, false, parent, false, T, pact, Some(n)), H).None? then None
         else Narrow(FlowIncr(incr, locals, parent, H, pact), H))
    case Forever(n, locals, incr, body) =>
      var H := Range(0, n);
      if !(H <= A) || Narrow(Flow(body, false, parent, first, H, pact, Some(n)), H).None? then None
      else Narrow(FlowIncr(incr, locals, parent, H, pact), H)
    case Break | Continue => if lim.Some? && Range(0, lim.value) <= A then Some(A) else None
  }

  /** A loop condition: its logical operators and then its test; the variables must survive it. */
  ghost function FlowCond(pre: Code, test: seq<Item>, r: Byte, opt: bool, opt': bool, parent: bool, first: bool,
        H: set<int>, pact: Pact): Option<set<int>>
    decreases pre, 1
  {
    match Flow(pre, opt, parent, first, H, pact, None)
    case None => None
    case Some(X) =>
      var T := FlowTest(test, r, opt', parent, X, pact);
      if T.Some? && H <= T.value then T else None
  }

  // ----- the simulation -----

  /** The program around the code, and the registers that must agree when the frame ends with an error. */
  datatype Setting<!V, !W> = Setting(env: Env<V, W>, prog: seq<Instr>, parent: bool, pact: Pact)

  /** Where a break and a continue go, and the number of variables at the head of their loop. */
  datatype Exits = Exits(brk: int, cont: int, lim: Option<nat>)

  /** What the machine has reached when the source outcome is o: the end of the code, the target of a
      break or continue, the end of the frame, or, when the source has not finished within its
      fuel, no end after at least that many steps. */
  ghost predicate Matches<V, W>(m: Setting<V, W>, o: Outcome<V, W>, cfg: Config<V, W>, k: nat, fuel: nat, A: set<int>, end: int, x: Exits) {
    match o
    case Fell(s) => cfg.At? && cfg.pc == end && Agree(A, s, cfg.st)
    case Broke(s) => x.lim.Some? && cfg.At? && cfg.pc == x.brk + 1 && Agree(Range(0, x.lim.value), s, cfg.st)
    case Continued(s) => x.lim.Some? && cfg.At? && cfg.pc == x.cont + 1 && Agree(Range(0, x.lim.value), s, cfg.st)
    case Ended(h) => cfg.End? && HaltAgree(m.env, m.pact.keep, h, cfg.h)
    case Timeout => cfg.At? && 0 <= cfg.pc < |m.prog| && k >= fuel
  }

  /** The part of Matches for an outcome that leaves every loop. */
  ghost predicate Left<V, W>(m: Setting<V, W>, o: Outcome<V, W>, cfg: Config<V, W>, k: nat, fuel: nat) {
    match o
    case Ended(h) => cfg.End? && HaltAgree(m.env, m.pact.keep, h, cfg.h)
    case Timeout => cfg.At? && 0 <= cfg.pc < |m.prog| && k >= fuel
    case _ => false
  }

  ghost predicate CanSim<V(!new), W(!new)>(m: Setting<V, W>, c: Code, opt: bool, first: bool, p: int, x: Exits,
        A: set<int>, s: State<V, W>, t: State<V, W>) {
    && Suits(m.env, m.pact) && Agree(A, s, t)
    && Flow(c, opt, m.parent, first, A, m.pact, x.lim).Some?
    && Fits(m.prog, p, Gen(c, opt, m.parent, first), x.brk, x.cont)
  }

  ghost predicate Done<V, W>(m: Setting<V, W>, c: Code, opt: bool, first: bool, p: int, x: Exits, A: set<int>,
        s: State<V, W>, t: State<V, W>, fuel: nat, k: nat, cfg: Config<V, W>)
    requires Flow(c, opt, m.parent, first, A, m.pact, x.lim).Some?
  {
    && cfg == Run(m.env, m.prog, At(p, t), k)
    && Matches(m, Ev(m.env, c, s, fuel), cfg, k, fuel, Flow(c, opt, m.parent, first, A, m.pact, x.lim).value,
               p + |Gen(c, opt, m.parent, first)|, x)
  }

  /** The machine has gone on to position `pc` with the same registers in A, or has ended the frame in the same way. */
  ghost predicate Reached<V, W>(env: Env<V, W>, A: set<int>, pact: Pact, res: Res<V, W>, cfg: Config<V, W>, pc: int) {
    match res
    case Go(_, s') => cfg.At? && cfg.pc == pc && Agree(A, s', cfg.st)
    case Stop(h) => cfg.End? && HaltAgree(env, pact.keep, h, cfg.h)
  }

  lemma SimLine<V(!new), W(!new)>(env: Env<V, W>, prog: seq<Instr>, items: seq<Item>, opt: bool, parent: bool, p: int,
        A: set<int>, pact: Pact, s: State<V, W>, t: State<V, W>)
    returns (cfg: Config<V, W>)
    requires Suits(env, pact) && Agree(A, s, t) && FlowLine(items, opt, parent, A, pact).Some?
    requires var code := Fuse(items, opt, parent).code;
      0 <= p && p + |code| <= |prog| && prog[p..p + |code|] == code
    ensures var code := Fuse(items, opt, parent).code;
      && cfg == Run(env, prog, At(p, t), |code|)
      && Reached(env, FlowLine(items, opt, parent, A, pact).value, pact, RunLine(env, Unfused(items), s), cfg, p + |code|)
  {
    hide Exec, Fuse, FlowItems, Unfused;
    var code := Fuse(items, opt, parent).code;
    cfg := Run(env, prog, At(p, t), |code|);
    FuseFollows(env, items, opt, parent, A, pact, s, t);
    FuseStraight(items, opt, parent);
    RunsLine(env, prog, p, code, t);
    if code != [] {
      match RunLine(env, code[..|code| - 1], t)
      case Stop(_) =>
      case Go(_, t') => NoJump(env, Last(code), t');
    }
  }

  lemma SimTest<V(!new), W(!new)>(env: Env<V, W>, prog: seq<Instr>, test: seq<Item>, r: Byte, opt: bool, parent: bool,
        p: int, offset: int, A: set<int>, pact: Pact, s: State<V, W>, t: State<V, W>)
    returns (cfg: Config<V, W>)
    requires Suits(env, pact) && Agree(A, s, t) && FlowTest(test, r, opt, parent, A, pact).Some?
    requires var T := TestCode(test, r, opt, parent);
      0 <= p && p + |T| <= |prog| && prog[p..p + |T|] == Patch(T, offset)
    ensures var T := TestCode(test, r, opt, parent);
      && cfg == Run(env, prog, At(p, t), |T|)
      && var res := Tested(env, test, r, s);
      Reached(env, FlowTest(test, r, opt, parent, A, pact).value, pact, res, cfg, p + |T| + if res.Go? && res.jump then offset else 0)
  {
    hide Exec, FlowItems, Unfused;
    var T := TestCode(test, r, opt, parent);
    var code := Patch(T, offset);
    cfg := Run(env, prog, At(p, t), |T|);
    FuseFollows(env, TestItems(test, r), opt, parent, A, pact, s, t);
    TestShape(test, r, opt, parent);
    PatchSame(env, T, offset, t);
    assert code[..|code| - 1] == T[..|T| - 1] && Last(code).a1 == offset;
    RunsLine(env, prog, p, code, t);
  }

  lemma SimIncr<V(!new), W(!new)>(env: Env<V, W>, prog: seq<Instr>, incr: seq<Item>, locals: set<int>, parent: bool,
        p: int, A: set<int>, pact: Pact, s: State<V, W>, t: State<V, W>)
    returns (cfg: Config<V, W>)
    requires Suits(env, pact) && Agree(A, s, t) && FlowIncr(incr, locals, parent, A, pact).Some?
    requires var I := IncrCode(incr, locals, parent);
      0 <= p && p + |I| <= |prog| && prog[p..p + |I|] == I
    ensures var I := IncrCode(incr, locals, parent);
      && cfg == Run(env, prog, At(p, t), |I|)
      && Reached(env, FlowIncr(incr, locals, parent, A, pact).value, pact, RunLine(env, Unfused(incr), s), cfg, p + |I|)
  {
    hide Exec, Fuse, FlowItems, Unfused;
    var once := Fuse(incr, false, parent).code;
    var again := ReEmit(once, locals);
    var A1, A2 := FlowItems(incr, false, parent, A, pact).value, FlowItems(again, false, parent, ALL, pact).value;
    FuseFollows(env, incr, false, parent, A, pact, s, t);
    FuseStraight(incr, false, parent);
    UnfusedReEmit(once, locals);
    cfg := SimLine(env, prog, again, false, parent, p, ALL, pact, t, t);
    var x, y := RunLine(env, Unfused(incr), s), RunLine(env, once, t);
    FuseFollows(env, again, false, parent, ALL, pact, t, t);
    FollowsTrans(env, A1, A2, pact.keep, x, y, RunLine(env, IncrCode(incr, locals, parent), t));
    FuseStraight(again, false, parent);
    RunsLine(env, prog, p, IncrCode(incr, locals, parent), t);
  }

  lemma {:induction false} UnfusedReEmit(code: seq<Instr>, locals: set<int>)
    ensures Unfused(ReEmit(code, locals)) == code
    decreases |code|
  {
    if code != [] {
      var n := |code| - 1;
      var items := ReEmit(code, locals);
      assert items[..n] == ReEmit(code[..n], locals);
      UnfusedReEmit(code[..n], locals);
      assert code == code[..n] + [code[n]];
    }
  }

  // ----- the definitions, one constructor at a time -----

  lemma UnfoldSeq<V, W>(m: Setting<V, W>, a: Code, b: Code, opt: bool, first: bool, A: set<int>, lim: Option<nat>,
        s: State<V, W>, fuel: nat)
    ensures var GA := Gen(a, opt, m.parent, first);
      Gen(Seq(a, b), opt, m.parent, first) == GA + Gen(b, false, m.parent, first && GA == [])
    ensures Flow(Seq(a, b), opt, m.parent, first, A, m.pact, lim).Some? ==>
      var X := Flow(a, opt, m.parent, first, A, m.pact, lim);
      X.Some? && Flow(Seq(a, b), opt, m.parent, first, A, m.pact, lim) ==
        Flow(b, false, m.parent, first && Gen(a, opt, m.parent, first) == [], X.value, m.pact, lim)
    ensures var o := Ev(m.env, a, s, fuel);
      Ev(m.env, Seq(a, b), s, fuel) == if o.Fell? then Ev(m.env, b, o.s, fuel) else o
  {
  }

  lemma UnfoldIf<V, W>(m: Setting<V, W>, test: seq<Item>, r: Byte, thn: Code, opt: bool, first: bool, A: set<int>,
        lim: Option<nat>, s: State<V, W>, fuel: nat)
    ensures Gen(If(test, r, thn), opt, m.parent, first) == LayIf(TestCode(test, r, opt, m.parent), Gen(thn, true, m.parent, false))
    ensures Flow(If(test, r, thn), opt, m.parent, first, A, m.pact, lim).Some? ==>
      var T := FlowTest(test, r, opt, m.parent, A, m.pact);
      T.Some? && Flow(If(test, r, thn), opt, m.parent, first, A, m.pact, lim) ==
      Meet(T, Flow(thn, true, m.parent, false, T.value, m.pact, lim))
    ensures var res := Tested(m.env, test, r, s);
      Ev(m.env, If(test, r, thn), s, fuel) ==
        if res.Stop? then Ended(res.h) else if res.jump then Fell(res.st) else Ev(m.env, thn, res.st, fuel)
  {
    hide TestCode, FlowTest, Tested, LayIf;
  }

  lemma UnfoldIfElse<V, W>(m: Setting<V, W>, test: seq<Item>, r: Byte, thn: Code, els: Code, opt: bool, first: bool,
        A: set<int>, lim: Option<nat>, s: State<V, W>, fuel: nat)
    ensures Gen(IfElse(test, r, thn, els), opt, m.parent, first) ==
      LayIfElse(TestCode(test, r, opt, m.parent), Gen(thn, true, m.parent, false), Gen(els, true, m.parent, false))
    ensures Flow(IfElse(test, r, thn, els), opt, m.parent, first, A, m.pact, lim).Some? ==>
      var T := FlowTest(test, r, opt, m.parent, A, m.pact);
      T.Some? && Flow(IfElse(test, r, thn, els), opt, m.parent, first, A, m.pact, lim) ==
        Meet(Flow(thn, true, m.parent, false, T.value, m.pact, lim), Flow(els, true, m.parent, false, T.value, m.pact, lim))
    ensures var res := Tested(m.env, test, r, s);
      Ev(m.env, IfElse(test, r, thn, els), s, fuel) ==
        if res.Stop? then Ended(res.h) else Ev(m.env, if res.jump then els else thn, res.st, fuel)
  {
    hide TestCode, FlowTest, Tested, LayIfElse;
  }

  lemma UnfoldLogic<V, W>(m: Setting<V, W>, isAnd: bool, trg: Byte, f: Byte, rest: Code, opt: bool, first: bool,
        A: set<int>, lim: Option<nat>, s: State<V, W>, fuel: nat)
    ensures Gen(Logic(isAnd, trg, f, rest), opt, m.parent, first) == LayLogic(isAnd, trg, f, Gen(rest, true, m.parent, false))
    ensures Flow(Logic(isAnd, trg, f, rest), opt, m.parent, first, A, m.pact, lim).Some? ==>
      f as int in A && Flow(Logic(isAnd, trg, f, rest), opt, m.parent, first, A, m.pact, lim) ==
        Meet(Some(A + {trg as int}), Flow(rest, true, m.parent, false, A, m.pact, lim))
    ensures Ev(m.env, Logic(isAnd, trg, f, rest), s, fuel) ==
      if m.env.isFalse(s.regs(f)) == isAnd then Fell(s.(regs := Upd(s.regs, trg, s.regs(f)))) else Ev(m.env, rest, s, fuel)
  {
    hide LayLogic;
  }

  lemma UnfoldWhile<V, W>(m: Setting<V, W>, n: nat, pre: Code, test: seq<Item>, r: Byte, body: Code, opt: bool,
        first: bool, A: set<int>, lim: Option<nat>, s: State<V, W>, fuel: nat)
    ensures Gen(While(n, pre, test, r, body), opt, m.parent, first) ==
      LayWhile(Gen(pre, opt, m.parent, first), TestCode(test, r, FlagAfter(pre, opt), m.parent), Gen(body, true, m.parent, false))
    ensures Flow(While(n, pre, test, r, body), opt, m.parent, first, A, m.pact, lim).Some? ==>
      var T := FlowCond(pre, test, r, opt, FlagAfter(pre, opt), m.parent, first, Range(0, n), m.pact);
      T.Some? && Narrow(Flow(body, true, m.parent, false, T.value, m.pact, Some(n)), Range(0, n)).Some?
    ensures Ev(m.env, While(n, pre, test, r, body), s, fuel) ==
      if fuel == 0 then Timeout
      else
        match Checked(m.env, Ev(m.env, pre, s, fuel), test, r)
        case Other(o) => o
        case No(s') => Fell(s')
        case Yes(s') =>
          match AfterBody(Ev(m.env, body, s', fuel))
          case Other(o) => o
          case No(s'') => Fell(s'')
          case Yes(s'') => Ev(m.env, While(n, pre, test, r, body), s'', fuel - 1)
  {
    hide TestCode, FlowCond, Checked, AfterBody, LayWhile;
  }

  lemma UnfoldDoWhile<V, W>(m: Setting<V, W>, n: nat, body: Code, pre: Code, test: seq<Item>, r: Byte, opt: bool,
        first: bool, A: set<int>, lim: Option<nat>, s: State<V, W>, fuel: nat)
    ensures var B := Gen(body, opt, m.parent, first);
      Gen(DoWhile(n, body, pre, test, r), opt, m.parent, first) ==
        LayDoWhile(B, Gen(pre, false, m.parent, first && B == []), TestCode(test, r, false, m.parent))
    ensures Flow(DoWhile(n, body, pre, test, r), opt, m.parent, first, A, m.pact, lim).Some? ==>
      && Narrow(Flow(body, opt, m.parent, first, Range(0, n), m.pact, Some(n)), Range(0, n)).Some?
      && FlowCond(pre, test, r, false, false, m.parent, first && Gen(body, opt, m.parent, first) == [], Range(0, n), m.pact).Some?
    ensures Ev(m.env, DoWhile(n, body, pre, test, r), s, fuel) ==
      if fuel == 0 then Timeout
      else
        match AfterBody(Ev(m.env, body, s, fuel))
        case Other(o) => o
        case No(s') => Fell(s')
        case Yes(s') =>
          match Checked(m.env, Ev(m.env, pre, s', fuel), test, r)
          case Other(o) => o
          case No(s'') => Fell(s'')
          case Yes(s'') => Ev(m.env, DoWhile(n, body, pre, test, r), s'', fuel - 1)
  {
    hide TestCode, FlowCond, Checked, AfterBody, LayDoWhile;
  }

  lemma UnfoldFor<V, W>(m: Setting<V, W>, n: nat, locals: set<int>, pre: Code, test: seq<Item>, r: Byte,
        incr: seq<Item>, body: Code, opt: bool, first: bool, A: set<int>, lim: Option<nat>, s: State<V, W>, fuel: nat)
    ensures Gen(For(n, locals, pre, test, r, incr, body), opt, m.parent, first) ==
      LayFor(first, Gen(pre, false, m.parent, first), TestCode(test, r, false, m.parent),
          Gen(body, false, m.parent, false), IncrCode(incr, locals, m.parent))
    ensures Flow(For(n, locals, pre, test, r, incr, body), opt, m.parent, first, A, m.pact, lim).Some? ==>
      && !(first && |Gen(pre, false, m.parent, first)| + |TestCode(test, r, false, m.parent)| == 1)
      && (var T := FlowCond(pre, test, r, false, false, m.parent, first, Range(0, n), m.pact);
          T.Some? && Narrow(Flow(body, false, m.parent, false, T.value, m.pact, Some(n)), Range(0, n)).Some?)
      && Narrow(FlowIncr(incr, locals, m.parent, Range(0, n), m.pact), Range(0, n)).Some?
    ensures Ev(m.env, For(n, locals, pre, test, r, incr, body), s, fuel) ==
      if fuel == 0 then Timeout
      else
        match Checked(m.env, Ev(m.env, pre, s, fuel), test, r)
        case Other(o) => o
        case No(s') => Fell(s')
        case Yes(s') =>
          match Incremented(m.env, AfterBody(Ev(m.env, body, s', fuel)), incr)
          case Other(o) => o
          case No(s'') => Fell(s'')
          case Yes(s'') => Ev(m.env, For(n, locals, pre, test, r, incr, body), s'', fuel - 1)
  {
    hide TestCode, FlowCond, Checked, AfterBody, LayFor, IncrCode, FlowIncr, Incremented;
  }

  lemma UnfoldForever<V, W>(m: Setting<V, W>, n: nat, locals: set<int>, incr: seq<Item>, body: Code, opt: bool,
        first: bool, A: set<int>, lim: Option<nat>, s: State<V, W>, fuel: nat)
    ensures Gen(Forever(n, locals, incr, body), opt, m.parent, first) ==
      LayForever(Gen(body, false, m.parent, first), IncrCode(incr, locals, m.parent), 0)
    ensures Flow(Forever(n, locals, incr, body), opt, m.parent, first, A, m.pact, lim).Some? ==>
      && Narrow(Flow(body, false, m.parent, first, Range(0, n), m.pact, Some(n)), Range(0, n)).Some?
      && Narrow(FlowIncr(incr, locals, m.parent, Range(0, n), m.pact), Range(0, n)).Some?
    ensures Ev(m.env, Forever(n, locals, incr, body), s, fuel) ==
      if fuel == 0 then Timeout
      else
        match Incremented(m.env, AfterBody(Ev(m.env, body, s, fuel)), incr)
        case Other(o) => o
        case No(s') => Fell(s')
        case Yes(s') => Ev(m.env, Forever(n, locals, incr, body), s', fuel - 1)
  {
    hide AfterBody, LayForever, IncrCode, FlowIncr, Incremented;
  }

  /** From states that agree, the machine follows the source through any disciplined code. */
  lemma {:induction false} Sim<V(!new), W(!new)>(m: Setting<V, W>, c: Code, opt: bool, first: bool, p: int, x: Exits,
        A: set<int>, s: State<V, W>, t: State<V, W>, fuel: nat)
    returns (k: nat, cfg: Config<V, W>)
    requires CanSim(m, c, opt, first, p, x, A, s, t)
    ensures Done(m, c, opt, first, p, x, A, s, t, fuel, k, cfg)
    decreases fuel, c, 2
  {
    hide CanSim, Done;
    match c
    case Seq(a, b) => k, cfg := SimSeq(m, a, b, opt, first, p, x, A, s, t, fuel);
    case If(test, r, thn) => k, cfg := SimIf(m, test, r, thn, opt, first, p, x, A, s, t, fuel);
    case IfElse(test, r, thn, els) => k, cfg := SimIfElse(m, test, r, thn, els, opt, first, p, x, A, s, t, fuel);
    case Logic(isAnd, trg, f, rest) => k, cfg := SimLogic(m, isAnd, trg, f, rest, opt, first, p, x, A, s, t, fuel);
    case While(n, pre, test, r, body) => k, cfg := SimWhile(m, n, pre, test, r, body, opt, first, p, x, A, s, t, fuel);
    case DoWhile(n, body, pre, test, r) => k, cfg := SimDoWhile(m, n, body, pre, test, r, opt, first, p, x, A, s, t, fuel);
    case For(n, locals, pre, test, r, incr, body) =>
      k, cfg := SimFor(m, n, locals, pre, test, r, incr, body, opt, first, p, x, A, s, t, fuel);
    case Forever(n, locals, incr, body) => k, cfg := SimForever(m, n, locals, incr, body, opt, first, p, x, A, s, t, fuel);
    case _ => k, cfg := SimLeaf(m, c, opt, first, p, x, A, s, t, fuel);
  }

  lemma SimLeaf<V(!new), W(!new)>(m: Setting<V, W>, c: Code, opt: bool, first: bool, p: int, x: Exits, A: set<int>,
        s: State<V, W>, t: State<V, W>, fuel: nat)
    returns (k: nat, cfg: Config<V, W>)
    requires CanSim(m, c, opt, first, p, x, A, s, t) && (c.Nil? || c.Line? || c.Break? || c.Continue?)
    ensures Done(m, c, opt, first, p, x, A, s, t, fuel, k, cfg)
  {
    hide Suits, HaltAgree, Exec, Step, Fuse, Unfused, FlowItems;
    match c
    case Nil => k, cfg := 0, At(p, t);
    case Line(items) =>
      FitsCells(m.prog, p, Fuse(items, opt, m.parent).code, x.brk, x.cont);
      cfg := SimLine(m.env, m.prog, items, opt, m.parent, p, A, m.pact, s, t);
      k := |Fuse(items, opt, m.parent).code|;
    case Break =>
      assert m.prog[p] == Jump(x.brk - p);
      k, cfg := TakeJump(m, p, t, 0, At(p, t), Jump(x.brk - p));
    case Continue =>
      assert m.prog[p] == Jump(x.cont - p);
      k, cfg := TakeJump(m, p, t, 0, At(p, t), Jump(x.cont - p));
  }

  lemma {:induction false} SimSeq<V(!new), W(!new)>(m: Setting<V, W>, a: Code, b: Code, opt: bool, first: bool, p: int,
        x: Exits, A: set<int>, s: State<V, W>, t: State<V, W>, fuel: nat)
    returns (k: nat, cfg: Config<V, W>)
    requires CanSim(m, Seq(a, b), opt, first, p, x, A, s, t)
    ensures Done(m, Seq(a, b), opt, first, p, x, A, s, t, fuel, k, cfg)
    decreases fuel, Seq(a, b), 1
  {
    hide Suits, HaltAgree, Exec, Run, Step, Fits, Ev, Gen, Flow;
    UnfoldSeq(m, a, b, opt, first, A, x.lim, s, fuel);
    var GA := Gen(a, opt, m.parent, first);
    FitsSplit(m.prog, p, GA, Gen(b, false, m.parent, first && GA == []), x.brk, x.cont);
    k, cfg := Sim(m, a, opt, first, p, x, A, s, t, fuel);
    var o := Ev(m.env, a, s, fuel);
    if o.Fell? {
      var X := Flow(a, opt, m.parent, first, A, m.pact, x.lim).value;
      var k2, cfg2 := Sim(m, b, false, first && GA == [], p + |GA|, x, X, o.s, cfg.st, fuel);
      RunPlus(m.env, m.prog, At(p, t), k, k2);
      k, cfg := k + k2, cfg2;
    }
  }

  lemma {:induction false} SimIf<V(!new), W(!new)>(m: Setting<V, W>, test: seq<Item>, r: Byte, thn: Code, opt: bool,
        first: bool, p: int, x: Exits, A: set<int>, s: State<V, W>, t: State<V, W>, fuel: nat)
    returns (k: nat, cfg: Config<V, W>)
    requires CanSim(m, If(test, r, thn), opt, first, p, x, A, s, t)
    ensures Done(m, If(test, r, thn), opt, first, p, x, A, s, t, fuel, k, cfg)
    decreases fuel, If(test, r, thn), 1
  {
    hide Suits, HaltAgree, Exec, Run, Step, Fits, Ev, Gen, Flow, LayIf, TestCode, FlowTest, Tested;
    UnfoldIf(m, test, r, thn, opt, first, A, x.lim, s, fuel);
    var T, G := TestCode(test, r, opt, m.parent), Gen(thn, true, m.parent, false);
    FitsIf(m.prog, p, T, G, x.brk, x.cont);
    cfg := SimTest(m.env, m.prog, test, r, opt, m.parent, p, |G|, A, m.pact, s, t);
    k := |T|;
    var res := Tested(m.env, test, r, s);
    if res.Go? && !res.jump {
      var k2, cfg2 := Sim(m, thn, true, false, p + |T|, x, FlowTest(test, r, opt, m.parent, A, m.pact).value, res.st, cfg.st, fuel);
      RunPlus(m.env, m.prog, At(p, t), k, k2);
      k, cfg := k + k2, cfg2;
    }
  }

  lemma {:induction false} SimIfElse<V(!new), W(!new)>(m: Setting<V, W>, test: seq<Item>, r: Byte, thn: Code, els: Code,
        opt: bool, first: bool, p: int, x: Exits, A: set<int>, s: State<V, W>, t: State<V, W>, fuel: nat)
    returns (k: nat, cfg: Config<V, W>)
    requires CanSim(m, IfElse(test, r, thn, els), opt, first, p, x, A, s, t)
    ensures Done(m, IfElse(test, r, thn, els), opt, first, p, x, A, s, t, fuel, k, cfg)
    decreases fuel, IfElse(test, r, thn, els), 1
  {
    hide Suits, HaltAgree, Exec, Run, Step, Fits, Ev, Gen, Flow, LayIfElse, TestCode, FlowTest, Tested;
    UnfoldIfElse(m, test, r, thn, els, opt, first, A, x.lim, s, fuel);
    var T, G, E := TestCode(test, r, opt, m.parent), Gen(thn, true, m.parent, false), Gen(els, true, m.parent, false);
    FitsIfElse(m.prog, p, T, G, E, x.brk, x.cont);
    cfg := SimTest(m.env, m.prog, test, r, opt, m.parent, p, |G| + 1, A, m.pact, s, t);
    k := |T|;
    var res := Tested(m.env, test, r, s);
    if res.Go? {
      var X := FlowTest(test, r, opt, m.parent, A, m.pact).value;
      var side, at := if res.jump then els else thn, if res.jump then p + |T| + |G| + 1 else p + |T|;
      var k2, cfg2 := Sim(m, side, true, false, at, x, X, res.st, cfg.st, fuel);
      RunPlus(m.env, m.prog, At(p, t), k, k2);
      k, cfg := k + k2, cfg2;
      if !res.jump && Ev(m.env, thn, res.st, fuel).Fell? { k, cfg := TakeJump(m, p, t, k, cfg, Jump(|E|)); }
    }
  }

  /** One more step, over an unconditional jump. */
  lemma TakeJump<V, W>(m: Setting<V, W>, p: int, t: State<V, W>, k: nat, cfg: Config<V, W>, J: Instr)
    returns (k': nat, cfg': Config<V, W>)
    requires cfg == Run(m.env, m.prog, At(p, t), k) && cfg.At? && 0 <= cfg.pc < |m.prog| && m.prog[cfg.pc] == J && J.op == JMP
    ensures k' == k + 1 && cfg' == Run(m.env, m.prog, At(p, t), k') && cfg' == At(cfg.pc + 1 + J.a1, cfg.st)
  {
    k', cfg' := k + 1, Step(m.env, m.prog, cfg);
    RunPlus(m.env, m.prog, At(p, t), k, 1);
    RunOne(m.env, m.prog, cfg);
  }

  lemma RunZero<V, W>(m: Setting<V, W>, p: int, t: State<V, W>)
    ensures Run(m.env, m.prog, At(p, t), 0) == At(p, t)
  {
  }

  lemma RunOne<V, W>(env: Env<V, W>, prog: seq<Instr>, c: Config<V, W>)
    ensures Run(env, prog, c, 1) == Step(env, prog, c)
  {
    assert Run(env, prog, Step(env, prog, c), 0) == Step(env, prog, c);
  }

  lemma {:induction false} SimLogic<V(!new), W(!new)>(m: Setting<V, W>, isAnd: bool, trg: Byte, f: Byte, rest: Code,
        opt: bool, first: bool, p: int, x: Exits, A: set<int>, s: State<V, W>, t: State<V, W>, fuel: nat)
    returns (k: nat, cfg: Config<V, W>)
    requires CanSim(m, Logic(isAnd, trg, f, rest), opt, first, p, x, A, s, t)
    ensures Done(m, Logic(isAnd, trg, f, rest), opt, first, p, x, A, s, t, fuel, k, cfg)
    decreases fuel, Logic(isAnd, trg, f, rest), 1
  {
    hide Suits, HaltAgree, Run, Fits, LayLogic, Ev, Gen, Flow;
    UnfoldLogic(m, isAnd, trg, f, rest, opt, first, A, x.lim, s, fuel);
    var R := Gen(rest, true, m.parent, false);
    FitsLogic(m.prog, p, isAnd, trg, f, R, x.brk, x.cont);
    k, cfg := 1, Step(m.env, m.prog, At(p, t));
    RunOne(m.env, m.prog, At(p, t));
    assert f as int in A && s.regs(f) == t.regs(f);
    if m.env.isFalse(s.regs(f)) != isAnd {
      assert cfg == At(p + 1, t);
      var k2, cfg2 := Sim(m, rest, true, false, p + 1, x, A, s, t, fuel);
      RunPlus(m.env, m.prog, At(p, t), 1, k2);
      k, cfg := 1 + k2, cfg2;
    }
  }

  /** A loop condition: the machine is past the test, or has taken its jump. */
  lemma {:induction false} SimCond<V(!new), W(!new)>(m: Setting<V, W>, pre: Code, test: seq<Item>, r: Byte, opt: bool,
        opt': bool, first: bool, p: int, x: Exits, offset: int, H: set<int>, s: State<V, W>, t: State<V, W>, fuel: nat)
    returns (k: nat, cfg: Config<V, W>)
    requires Suits(m.env, m.pact) && Agree(H, s, t) && FlowCond(pre, test, r, opt, opt', m.parent, first, H, m.pact).Some?
    requires Fits(m.prog, p, Gen(pre, opt, m.parent, first), x.brk, x.cont)
    requires var q := p + |Gen(pre, opt, m.parent, first)|;
      Fits(m.prog, q, Cells(Patch(TestCode(test, r, opt', m.parent), offset)), x.brk, x.cont)
    ensures cfg == Run(m.env, m.prog, At(p, t), k)
    ensures var q := p + |Gen(pre, opt, m.parent, first)| + |TestCode(test, r, opt', m.parent)|;
      var T := FlowCond(pre, test, r, opt, opt', m.parent, first, H, m.pact).value;
      H <= T &&
      match Checked(m.env, Ev(m.env, pre, s, fuel), test, r)
      case Yes(s') => k > 0 && cfg.At? && cfg.pc == q && Agree(T, s', cfg.st)
      case No(s') => cfg.At? && cfg.pc == q + offset && Agree(T, s', cfg.st)
      case Other(o) => Left(m, o, cfg, k, fuel)
    decreases fuel, pre, 3
  {
    hide Suits, HaltAgree, Exec, Run, Step, Fits, Ev, Gen, Flow, TestCode, FlowTest, Tested, Agree;
    var G, T := Gen(pre, opt, m.parent, first), TestCode(test, r, opt', m.parent);
    k, cfg := Sim(m, pre, opt, first, p, Exits(x.brk, x.cont, None), H, s, t, fuel);
    var o := Ev(m.env, pre, s, fuel);
    if o.Fell? {
      FitsCells(m.prog, p + |G|, Patch(T, offset), x.brk, x.cont);
      var X := Flow(pre, opt, m.parent, first, H, m.pact, None).value;
      var cfg2 := SimTest(m.env, m.prog, test, r, opt', m.parent, p + |G|, offset, X, m.pact, o.s, cfg.st);
      RunPlus(m.env, m.prog, At(p, t), k, |T|);
      k, cfg := k + |T|, cfg2;
    }
  }

  lemma AgreeOnFewer<V, W>(A: set<int>, H: set<int>, s: State<V, W>, t: State<V, W>)
    requires Agree(A, s, t) && H <= A
    ensures Agree(H, s, t)
  {
  }

  /** The registers at a loop head do not depend on how the loop is reached. */
  lemma FlowLoop(c: Code, opt: bool, parent: bool, first: bool, A: set<int>, pact: Pact, lim: Option<nat>)
    requires (c.While? || c.DoWhile? || c.For? || c.Forever?) && Flow(c, opt, parent, first, A, pact, lim).Some?
    ensures Range(0, c.n) <= A
    ensures Flow(c, opt, parent, first, A, pact, lim) == Flow(c, opt, parent, first, Range(0, c.n), pact, lim) == Some(Range(0, c.n))
  {
    hide FlowCond, FlowIncr, Gen, TestCode;
  }

  /** After a body that goes on the machine is at `next`, after one that breaks at `out`. */
  ghost predicate Turned<V, W>(m: Setting<V, W>, n: nat, v: Verdict<V, W>, cfg: Config<V, W>, k: nat, fuel: nat, next: int, out: int) {
    match v
    case Yes(s') => cfg.At? && cfg.pc == next && Agree(Range(0, n), s', cfg.st)
    case No(s') => cfg.At? && cfg.pc == out && Agree(Range(0, n), s', cfg.st)
    case Other(o) => Left(m, o, cfg, k, fuel)
  }

  /** A loop body after which, and on a continue, the machine goes to position next. */
  lemma {:induction false} SimBody<V(!new), W(!new)>(m: Setting<V, W>, n: nat, body: Code, opt: bool, first: bool,
        p: int, end: int, next: int, X: set<int>, s: State<V, W>, t: State<V, W>, fuel: nat)
    returns (k: nat, cfg: Config<V, W>)
    requires CanSim(m, body, opt, first, p, Exits(end, next - 1, Some(n)), X, s, t)
    requires Range(0, n) <= Flow(body, opt, m.parent, first, X, m.pact, Some(n)).value
    requires var q := p + |Gen(body, opt, m.parent, first)|;
      q == next || (0 <= q < |m.prog| && m.prog[q] == Jump(next - 1 - q))
    ensures cfg == Run(m.env, m.prog, At(p, t), k)
    ensures Turned(m, n, AfterBody(Ev(m.env, body, s, fuel)), cfg, k, fuel, next, end + 1)
    decreases fuel, body, 3
  {
    hide Suits, HaltAgree, Exec, Run, Step, Fits, Ev, Gen, Flow;
    var q := p + |Gen(body, opt, m.parent, first)|;
    k, cfg := Sim(m, body, opt, first, p, Exits(end, next - 1, Some(n)), X, s, t, fuel);
    if Ev(m.env, body, s, fuel).Fell? && q != next { k, cfg := TakeJump(m, p, t, k, cfg, Jump(next - 1 - q)); }
  }

  lemma {:induction false} SimWhile<V(!new), W(!new)>(m: Setting<V, W>, n: nat, pre: Code, test: seq<Item>, r: Byte,
        body: Code, opt: bool, first: bool, p: int, x: Exits, A: set<int>, s: State<V, W>, t: State<V, W>, fuel: nat)
    returns (k: nat, cfg: Config<V, W>)
    requires CanSim(m, While(n, pre, test, r, body), opt, first, p, x, A, s, t)
    ensures Done(m, While(n, pre, test, r, body), opt, first, p, x, A, s, t, fuel, k, cfg)
    decreases fuel, While(n, pre, test, r, body), 1
  {
    hide Suits, HaltAgree, Exec, Run, Step, Fits, Ev, Gen, Flow, LayWhile, TestCode, FlowCond, Checked, AfterBody;
    UnfoldWhile(m, n, pre, test, r, body, opt, first, A, x.lim, s, fuel);
    var c, H, opt' := While(n, pre, test, r, body), Range(0, n), FlagAfter(pre, opt);
    FlowLoop(c, opt, m.parent, first, A, m.pact, x.lim);
    var P, T, B := Gen(pre, opt, m.parent, first), TestCode(test, r, opt', m.parent), Gen(body, true, m.parent, false);
    FitsWhile(m.prog, p, P, T, B, x.brk, x.cont);
    k, cfg := 0, At(p, t);
    if fuel == 0 { RunZero(m, p, t); return; }
    k, cfg := SimCond(m, pre, test, r, opt, opt', first, p, x, |B| + 1, H, s, t, fuel);
    var v := Checked(m.env, Ev(m.env, pre, s, fuel), test, r);
    if v.Yes? {
      var X := FlowCond(pre, test, r, opt, opt', m.parent, first, H, m.pact).value;
      var q := p + |P| + |T|;
      var k2, cfg2 := SimBody(m, n, body, true, false, q, q + |B|, p, X, v.s, cfg.st, fuel);
      RunPlus(m.env, m.prog, At(p, t), k, k2);
      k, cfg := k + k2, cfg2;
      var v' := AfterBody(Ev(m.env, body, v.s, fuel));
      if v'.Yes? {
        var k3, cfg3 := Sim(m, c, opt, first, p, x, H, v'.s, cfg.st, fuel - 1);
        RunPlus(m.env, m.prog, At(p, t), k, k3);
        k, cfg := k + k3, cfg3;
      }
    }
  }

  /** The test behind a loop body: the machine goes on to the jump back, or one further. */
  lemma {:induction false} SimBackTest<V(!new), W(!new)>(m: Setting<V, W>, n: nat, pre: Code, test: seq<Item>, r: Byte,
        first: bool, q: int, x: Exits, s: State<V, W>, p: int, t: State<V, W>, j: nat, at: Config<V, W>, fuel: nat)
    returns (k: nat, cfg: Config<V, W>)
    requires at == Run(m.env, m.prog, At(p, t), j) && at.At? && at.pc == q && Agree(Range(0, n), s, at.st) && Suits(m.env, m.pact)
    requires FlowCond(pre, test, r, false, false, m.parent, first, Range(0, n), m.pact).Some?
    requires Fits(m.prog, q, Gen(pre, false, m.parent, first), x.brk, x.cont)
    requires Fits(m.prog, q + |Gen(pre, false, m.parent, first)|, Cells(Patch(TestCode(test, r, false, m.parent), 1)), x.brk, x.cont)
    ensures cfg == Run(m.env, m.prog, At(p, t), k)
    ensures var end := q + |Gen(pre, false, m.parent, first)| + |TestCode(test, r, false, m.parent)|;
      Turned(m, n, Checked(m.env, Ev(m.env, pre, s, fuel), test, r), cfg, k, fuel, end, end + 1)
    decreases fuel, pre, 4
  {
    hide Suits, HaltAgree, Exec, Run, Step, Fits, Ev, Gen, Flow, TestCode, FlowCond, Checked, Agree;
    var k2, cfg2 := SimCond(m, pre, test, r, false, false, first, q, x, 1, Range(0, n), s, at.st, fuel);
    RunPlus(m.env, m.prog, At(p, t), j, k2);
    k, cfg := j + k2, cfg2;
    var v := Checked(m.env, Ev(m.env, pre, s, fuel), test, r);
    var X := FlowCond(pre, test, r, false, false, m.parent, first, Range(0, n), m.pact).value;
    if !v.Other? { AgreeOnFewer(X, Range(0, n), v.s, cfg.st); }
  }

  lemma {:induction false} SimDoWhile<V(!new), W(!new)>(m: Setting<V, W>, n: nat, body: Code, pre: Code,
        test: seq<Item>, r: Byte, opt: bool, first: bool, p: int, x: Exits, A: set<int>, s: State<V, W>, t: State<V, W>,
        fuel: nat)
    returns (k: nat, cfg: Config<V, W>)
    requires CanSim(m, DoWhile(n, body, pre, test, r), opt, first, p, x, A, s, t)
    ensures Done(m, DoWhile(n, body, pre, test, r), opt, first, p, x, A, s, t, fuel, k, cfg)
    decreases fuel, DoWhile(n, body, pre, test, r), 1
  {
    hide Suits, HaltAgree, Exec, Run, Step, Fits, Ev, Gen, Flow, LayDoWhile, TestCode, FlowCond, Checked, AfterBody, Agree;
    UnfoldDoWhile(m, n, body, pre, test, r, opt, first, A, x.lim, s, fuel);
    var c, H := DoWhile(n, body, pre, test, r), Range(0, n);
    FlowLoop(c, opt, m.parent, first, A, m.pact, x.lim);
    var B := Gen(body, opt, m.parent, first);
    var P, T := Gen(pre, false, m.parent, first && B == []), TestCode(test, r, false, m.parent);
    FitsDoWhile(m.prog, p, B, P, T, x.brk, x.cont);
    k, cfg := 0, At(p, t);
    if fuel == 0 { RunZero(m, p, t); return; }
    var q, end := p + |B|, p + |B| + |P| + |T|;
    AgreeOnFewer(A, H, s, t);
    k, cfg := SimBody(m, n, body, opt, first, p, end, q, H, s, t, fuel);
    var v := AfterBody(Ev(m.env, body, s, fuel));
    if v.Yes? {
      k, cfg := SimBackTest(m, n, pre, test, r, first && B == [], q, x, v.s, p, t, k, cfg, fuel);
      var v' := Checked(m.env, Ev(m.env, pre, v.s, fuel), test, r);
      if v'.Yes? {
        k, cfg := TakeJump(m, p, t, k, cfg, Jump(p - 1 - end));
        var k3, cfg3 := Sim(m, c, opt, first, p, x, H, v'.s, cfg.st, fuel - 1);
        RunPlus(m.env, m.prog, At(p, t), k, k3);
        k, cfg := k + k3, cfg3;
      }
    }
  }

  lemma {:induction false} SimFor<V(!new), W(!new)>(m: Setting<V, W>, n: nat, locals: set<int>, pre: Code,
        test: seq<Item>, r: Byte, incr: seq<Item>, body: Code, opt: bool, first: bool, p: int, x: Exits, A: set<int>,
        s: State<V, W>, t: State<V, W>, fuel: nat)
    returns (k: nat, cfg: Config<V, W>)
    requires CanSim(m, For(n, locals, pre, test, r, incr, body), opt, first, p, x, A, s, t)
    ensures Done(m, For(n, locals, pre, test, r, incr, body), opt, first, p, x, A, s, t, fuel, k, cfg)
    decreases fuel, For(n, locals, pre, test, r, incr, body), 1
  {
    hide Suits, HaltAgree, Exec, Run, Step, Fits, Ev, Gen, Flow, LayFor, LayForever, TestCode, FlowCond, Checked,
        IncrCode, FlowIncr, Incremented;
    UnfoldFor(m, n, locals, pre, test, r, incr, body, opt, first, A, x.lim, s, fuel);
    var c, H := For(n, locals, pre, test, r, incr, body), Range(0, n);
    FlowLoop(c, opt, m.parent, first, A, m.pact, x.lim);
    var P, T, B := Gen(pre, false, m.parent, first), TestCode(test, r, false, m.parent), Gen(body, false, m.parent, false);
    var I := IncrCode(incr, locals, m.parent);
    FitsFor(m.prog, p, P, T, B, I, x.brk, x.cont, first);
    k, cfg := 0, At(p, t);
    if fuel == 0 { RunZero(m, p, t); return; }
    k, cfg := SimCond(m, pre, test, r, false, false, first, p, x, |B| + |I| + 1, H, s, t, fuel);
    var v := Checked(m.env, Ev(m.env, pre, s, fuel), test, r);
    if v.Yes? {
      var X := FlowCond(pre, test, r, false, false, m.parent, first, H, m.pact).value;
      var k2, cfg2 := SimTurn(m, n, locals, incr, body, false, p, p + |P| + |T|, x, X, v.s, cfg.st, fuel);
      RunPlus(m.env, m.prog, At(p, t), k, k2);
      k, cfg := k + k2, cfg2;
      var v' := Incremented(m.env, AfterBody(Ev(m.env, body, v.s, fuel)), incr);
      if v'.Yes? {
        var k3, cfg3 := Sim(m, c, opt, first, p, x, H, v'.s, cfg.st, fuel - 1);
        RunPlus(m.env, m.prog, At(p, t), k, k3);
        k, cfg := k + k3, cfg3;
      }
    }
  }

  lemma {:induction false} SimForever<V(!new), W(!new)>(m: Setting<V, W>, n: nat, locals: set<int>, incr: seq<Item>,
        body: Code, opt: bool, first: bool, p: int, x: Exits, A: set<int>, s: State<V, W>, t: State<V, W>, fuel: nat)
    returns (k: nat, cfg: Config<V, W>)
    requires CanSim(m, Forever(n, locals, incr, body), opt, first, p, x, A, s, t)
    ensures Done(m, Forever(n, locals, incr, body), opt, first, p, x, A, s, t, fuel, k, cfg)
    decreases fuel, Forever(n, locals, incr, body), 1
  {
    hide Suits, HaltAgree, Exec, Run, Step, Fits, Ev, Gen, Flow, LayForever, IncrCode, FlowIncr, Incremented;
    UnfoldForever(m, n, locals, incr, body, opt, first, A, x.lim, s, fuel);
    var c, H := Forever(n, locals, incr, body), Range(0, n);
    FlowLoop(c, opt, m.parent, first, A, m.pact, x.lim);
    FitsForever(m.prog, p, Gen(body, false, m.parent, first), IncrCode(incr, locals, m.parent), 0, x.brk, x.cont);
    k, cfg := 0, At(p, t);
    if fuel == 0 { RunZero(m, p, t); return; }
    k, cfg := SimTurn(m, n, locals, incr, body, first, p, p, x, H, s, t, fuel);
    var v := Incremented(m.env, AfterBody(Ev(m.env, body, s, fuel)), incr);
    if v.Yes? {
      var k3, cfg3 := Sim(m, c, opt, first, p, x, H, v.s, cfg.st, fuel - 1);
      RunPlus(m.env, m.prog, At(p, t), k, k3);
      k, cfg := k + k3, cfg3;
    }
  }

  /** Body, increment and closing jump of a for loop whose head is at position h. */
  lemma {:induction false} SimTurn<V(!new), W(!new)>(m: Setting<V, W>, n: nat, locals: set<int>, incr: seq<Item>,
        body: Code, first: bool, h: int, q: int, x: Exits, X: set<int>, s: State<V, W>, t: State<V, W>, fuel: nat)
    returns (k: nat, cfg: Config<V, W>)
    requires Suits(m.env, m.pact) && Agree(X, s, t) && h <= q
    requires Narrow(Flow(body, false, m.parent, first, X, m.pact, Some(n)), Range(0, n)).Some?
    requires Narrow(FlowIncr(incr, locals, m.parent, Range(0, n), m.pact), Range(0, n)).Some?
    requires Fits(m.prog, q, LayForever(Gen(body, false, m.parent, first), IncrCode(incr, locals, m.parent), q - h), x.brk, x.cont)
    ensures cfg == Run(m.env, m.prog, At(q, t), k)
    ensures var end := q + |Gen(body, false, m.parent, first)| + |IncrCode(incr, locals, m.parent)|;
      match Incremented(m.env, AfterBody(Ev(m.env, body, s, fuel)), incr)
      case Yes(s') => k > 0 && cfg.At? && cfg.pc == h && Agree(Range(0, n), s', cfg.st)
      case No(s') => cfg.At? && cfg.pc == end + 1 && Agree(Range(0, n), s', cfg.st)
      case Other(o) => Left(m, o, cfg, k, fuel)
    decreases fuel, body, 4
  {
    hide Suits, HaltAgree, Exec, Run, Step, Fits, Ev, Gen, Flow, LayForever, IncrCode, FlowIncr, AfterBody;
    var H, B, I := Range(0, n), Gen(body, false, m.parent, first), IncrCode(incr, locals, m.parent);
    var end := q + |B| + |I|;
    FitsForever(m.prog, q, B, I, q - h, x.brk, x.cont);
    k, cfg := SimBody(m, n, body, false, first, q, end, q + |B|, X, s, t, fuel);
    var v := AfterBody(Ev(m.env, body, s, fuel));
    if v.Yes? {
      var cfg2 := SimIncr(m.env, m.prog, incr, locals, m.parent, q + |B|, H, m.pact, v.s, cfg.st);
      RunPlus(m.env, m.prog, At(q, t), k, |I|);
      k, cfg := k + |I|, cfg2;
      if cfg.At? { k, cfg := TakeJump(m, q, t, k, cfg, Jump(h - 1 - end)); }
    }
  }
}
