/** The function state of the compiler: instructions are emitted, merged and
    patched in place.  Its code generation is proved to leave exactly the layout
    of `Codegen.Gen`. */
module FuncState {
  import opened Common
  import opened Bytecode
  import opened Peephole
  import opened Codegen
  import opened Simulation
  import Compiler
  import Watch

  const UNRESOLVED := -1234

  /** What stands at the position of a cell before its loop is closed. */
  function Placeholder(cell: Cell): Instr {
    if cell.Ready? then cell.i else Jump(UNRESOLVED)
  }

  function Placeholders(cells: seq<Cell>): (r: seq<Instr>)
    ensures |r| == |cells|
  {
    seq(|cells|, i requires 0 <= i < |cells| => Placeholder(cells[i]))
  }

  /** An instruction no rule merges anything into. */
  predicate Barrier(i: Instr) { IsJump(i.op) }

  // ----- emission at the end of longer code -----

  lemma MergeBarrier(p: Instr, i: Instr, locals: set<int>)
    requires Barrier(p)
    ensures Merge(p, i, locals).None?
  {
  }

  /** The optimizer never looks further back than the start of a fresh piece of code. */
  lemma AddLocal(before: seq<Instr>, b: Buf, i: Instr, locals: set<int>, parent: bool, retStart: int)
    requires b.opt && b.code == [] ==> before != [] && Barrier(Last(before))
    ensures var whole := AddInstruction(Buf(before + b.code, b.opt), i, locals, parent, |before| + retStart);
      var piece := AddInstruction(b, i, locals, parent, retStart);
      whole == Buf(before + piece.code, piece.opt)
  {
    var code := before + b.code;
    if b.opt {
      if b.code == [] {
        assert code == before;
        MergeBarrier(Last(before), i, locals);
      } else {
        assert Last(code) == Last(b.code);
        assert forall f :: ReplaceLast(code, f) == before + ReplaceLast(b.code, f);
      }
    }
  }

  lemma DiscardLocal(before: seq<Instr>, b: Buf, target: int, parent: bool)
    requires b.opt && b.code == [] ==> before != [] && Barrier(Last(before))
    ensures Act(Buf(before + b.code, b.opt), Discard(target), parent).code == before + Act(b, Discard(target), parent).code
  {
    var code := before + b.code;
    if b.code == [] { assert code == before; } else { assert Last(code) == Last(b.code); }
  }

  lemma FuseNothing(items: seq<Item>, opt: bool, parent: bool)
    ensures Fuse(items[..0], opt, parent) == Buf([], opt)
  {
  }

  lemma FuseNext(items: seq<Item>, k: nat, opt: bool, parent: bool)
    requires k < |items|
    ensures Fuse(items[..k + 1], opt, parent) == Act(Fuse(items[..k], opt, parent), items[k], parent)
  {
    assert items[..k + 1][..k] == items[..k];
  }

  // ----- what a piece of code generation leaves -----

  datatype Snap = Snap(code: seq<Instr>, brks: seq<int>, conts: seq<int>)

  /** The new entries of an unresolved list are the positions of the cells that satisfy `hole`. */
  ghost predicate Holes(o: seq<int>, n: seq<int>, base: int, cells: seq<Cell>, hole: Cell) {
    && o <= n
    && (forall k :: |o| <= k < |n| ==> base <= n[k] < base + |cells| && cells[n[k] - base] == hole)
    && (forall j :: 0 <= j < |cells| && cells[j] == hole ==> base + j in n[|o|..])
  }

  /** From o to n, the cells have been appended, their holes left to be resolved. */
  ghost predicate Emits(o: Snap, n: Snap, cells: seq<Cell>) {
    && n.code == o.code + Placeholders(cells)
    && Holes(o.brks, n.brks, |o.code|, cells, BreakHole)
    && Holes(o.conts, n.conts, |o.code|, cells, ContinueHole)
  }

  lemma HolesJoin(o: seq<int>, m: seq<int>, n: seq<int>, base: int, a: seq<Cell>, b: seq<Cell>, hole: Cell)
    requires Holes(o, m, base, a, hole) && Holes(m, n, base + |a|, b, hole)
    ensures Holes(o, n, base, a + b, hole)
  {
    forall j | 0 <= j < |a + b| && (a + b)[j] == hole ensures base + j in n[|o|..] {
      if j < |a| {
        var k :| 0 <= k < |m| - |o| && m[|o|..][k] == base + j;
        assert n[|o|..][k] == base + j;
      } else {
        var k :| 0 <= k < |n| - |m| && n[|m|..][k] == base + |a| + (j - |a|);
        assert n[|o|..][k + |m| - |o|] == base + j;
      }
    }
  }

  lemma EmitsJoin(o: Snap, m: Snap, n: Snap, a: seq<Cell>, b: seq<Cell>)
    requires Emits(o, m, a) && Emits(m, n, b)
    ensures Emits(o, n, a + b)
  {
    hide Holes;
    HolesJoin(o.brks, m.brks, n.brks, |o.code|, a, b, BreakHole);
    HolesJoin(o.conts, m.conts, n.conts, |o.code|, a, b, ContinueHole);
    assert Placeholders(a + b) == Placeholders(a) + Placeholders(b);
  }

  lemma EmitsReady(o: Snap, n: Snap, code: seq<Instr>)
    requires n.code == o.code + code && n.brks == o.brks && n.conts == o.conts
    ensures Emits(o, n, Cells(code))
  {
    assert Placeholders(Cells(code)) == code;
  }

  /** Patching the jump offset of an instruction already in place. */
  lemma EmitsPatched(o: Snap, n: Snap, a: seq<Cell>, i: Instr, b: seq<Cell>, offset: int)
    requires Emits(o, n, a + ([Ready(i)] + b))
    ensures var pos := |o.code| + |a|;
      && 0 <= pos < |n.code| && n.code[pos] == i
      && Emits(o, n.(code := n.code[pos := i.(a1 := offset)]), a + ([Ready(i.(a1 := offset))] + b))
  {
    var pos, cells, cells' := |o.code| + |a|, a + ([Ready(i)] + b), a + ([Ready(i.(a1 := offset))] + b);
    assert cells' == cells[|a| := Ready(i.(a1 := offset))] && cells[|a|] == Ready(i);
    assert n.code[pos] == Placeholders(cells)[|a|];
    assert n.code[pos := i.(a1 := offset)] == o.code + Placeholders(cells');
  }

  /** The instructions at the given positions become jumps to just after the target. */
  function Redirect(code: seq<Instr>, positions: seq<int>, target: int): (r: seq<Instr>)
    ensures |r| == |code|
  {
    seq(|code|, j requires 0 <= j < |code| => if j in positions then Jump(target - j) else code[j])
  }

  /** Closing holes with targets counted from the start of the function. */
  function CloseAt(cells: seq<Cell>, base: int, brk: int, cont: int): seq<Cell> {
    Close(cells, brk - base, cont - base)
  }

  ghost predicate NoHoles(cells: seq<Cell>) {
    forall j :: 0 <= j < |cells| ==> cells[j].Ready?
  }

  lemma EmitsClosed(o: Snap, n: Snap, cells: seq<Cell>, brk: int, cont: int)
    requires Emits(o, n, cells)
    ensures var code := Redirect(Redirect(n.code, n.conts[|o.conts|..], cont), n.brks[|o.brks|..], brk);
      Emits(o, Snap(code, o.brks, o.conts), CloseAt(cells, |o.code|, brk, cont))
  {
    var base, closed := |o.code|, CloseAt(cells, |o.code|, brk, cont);
    var once := Redirect(n.code, n.conts[|o.conts|..], cont);
    var code := Redirect(once, n.brks[|o.brks|..], brk);
    forall j | 0 <= j < |n.code| ensures code[j] == (o.code + Placeholders(closed))[j] {
      ClosedPosition(o, n, cells, brk, cont, j);
    }
  }

  /** What resolving leaves at one position: the code before, an instruction, or a jump to the loop's own target. */
  lemma ClosedPosition(o: Snap, n: Snap, cells: seq<Cell>, brk: int, cont: int, j: nat)
    requires Emits(o, n, cells) && j < |n.code|
    ensures |CloseAt(cells, |o.code|, brk, cont)| == |cells|
    ensures Redirect(Redirect(n.code, n.conts[|o.conts|..], cont), n.brks[|o.brks|..], brk)[j]
         == (o.code + Placeholders(CloseAt(cells, |o.code|, brk, cont)))[j]
  {
    var base, closed := |o.code|, CloseAt(cells, |o.code|, brk, cont);
    assert n.code[j] == (o.code + Placeholders(cells))[j];
    if base <= j {
      assert Placeholders(closed)[j - base] == Placeholder(closed[j - base]);
      HoleAt(o.brks, n.brks, base, cells, BreakHole, j);
      HoleAt(o.conts, n.conts, base, cells, ContinueHole, j);
    } else {
      NotHole(o.brks, n.brks, base, cells, BreakHole, j);
      NotHole(o.conts, n.conts, base, cells, ContinueHole, j);
    }
  }

  lemma HoleAt(o: seq<int>, n: seq<int>, base: int, cells: seq<Cell>, hole: Cell, j: int)
    requires Holes(o, n, base, cells, hole) && base <= j < base + |cells|
    ensures j in n[|o|..] <==> cells[j - base] == hole
  {
    if j in n[|o|..] {
      var k :| 0 <= k < |n[|o|..]| && n[|o|..][k] == j;
      assert n[|o| + k] == j;
    }
  }

  lemma NotHole(o: seq<int>, n: seq<int>, base: int, cells: seq<Cell>, hole: Cell, j: int)
    requires Holes(o, n, base, cells, hole) && j < base
    ensures j !in n[|o|..]
  {
  }

  /** Straight-line parts hold no jumps, and conditions no break or continue of their own. */
  ghost predicate Plain(c: Code) {
    match c
    case Nil => true
    case Line(items) => StraightItems(items)
    case Seq(a, b) => Plain(a) && Plain(b)
    case If(test, _, thn) => StraightItems(test) && Plain(thn)
    case IfElse(test, _, thn, els) => StraightItems(test) && Plain(thn) && Plain(els)
    case Logic(_, _, _, rest) => Plain(rest)
    case While(_, pre, test, _, body) => Plain(pre) && NoEscape(pre) && StraightItems(test) && Plain(body)
    case DoWhile(_, body, pre, test, _) => Plain(pre) && NoEscape(pre) && StraightItems(test) && Plain(body)
    case For(_, _, pre, test, _, incr, body) => Plain(pre) && NoEscape(pre) && StraightItems(test) && StraightItems(incr) && Plain(body)
    case Forever(_, _, incr, body) => StraightItems(incr) && Plain(body)
    case Break => true
    case Continue => true
  }

  predicate NoEscape(c: Code) {
    match c
    case Nil => true
    case Line(_) => true
    case Seq(a, b) => NoEscape(a) && NoEscape(b)
    case If(_, _, thn) => NoEscape(thn)
    case IfElse(_, _, thn, els) => NoEscape(thn) && NoEscape(els)
    case Logic(_, _, _, rest) => NoEscape(rest)
    case While(_, pre, _, _, _) => NoEscape(pre)
    case DoWhile(_, _, pre, _, _) => NoEscape(pre)
    case For(_, _, pre, _, _, _, _) => NoEscape(pre)
    case Forever(_, _, _, _) => true
    case Break => false
    case Continue => false
  }

  lemma BranchNoHoles(T: seq<Instr>, G: seq<Cell>, E: seq<Cell>, isAnd: bool, trg: Byte, f: Byte)
    requires T != [] && NoHoles(G) && NoHoles(E)
    ensures NoHoles(G + E) && NoHoles(LayIf(T, G)) && NoHoles(LayIfElse(T, G, E)) && NoHoles(LayLogic(isAnd, trg, f, G))
  {
  }

  lemma LoopNoHoles(P: seq<Cell>, T: seq<Instr>, B: seq<Cell>, I: seq<Instr>, first: bool)
    requires T != [] && NoHoles(P)
    ensures NoHoles(LayWhile(P, T, B)) && NoHoles(LayDoWhile(B, P, T)) && NoHoles(LayForever(B, I, 0)) && NoHoles(LayFor(first, P, T, B, I))
  {
    assert NoHoles(Close(B, |B|, -1 - |P| - |T|)) && NoHoles(Cells(I)) && NoHoles(LayForever(B, I, |P| + |T|));
  }

  lemma {:induction false} NoEscapeNoHoles(c: Code, opt: bool, parent: bool, first: bool)
    requires NoEscape(c)
    ensures NoHoles(Gen(c, opt, parent, first))
  {
    hide Fuse, TestCode, IncrCode, NoHoles, LayIf, LayIfElse, LayLogic, LayWhile, LayDoWhile, LayFor, LayForever;
    match c
    case Nil => ReadyNoHoles([]);
    case Line(items) => ReadyNoHoles(Fuse(items, opt, parent).code);
    case Seq(a, b) =>
      var A := Gen(a, opt, parent, first);
      NoEscapeNoHoles(a, opt, parent, first);
      NoEscapeNoHoles(b, false, parent, first && A == []);
      BranchNoHoles([Jump(0)], A, Gen(b, false, parent, first && A == []), true, 0, 0);
    case If(test, r, thn) =>
      var G := Gen(thn, true, parent, false);
      NoEscapeNoHoles(thn, true, parent, false);
      BranchNoHoles(TestCode(test, r, opt, parent), G, G, true, 0, 0);
    case IfElse(test, r, thn, els) =>
      NoEscapeNoHoles(thn, true, parent, false);
      NoEscapeNoHoles(els, true, parent, false);
      BranchNoHoles(TestCode(test, r, opt, parent), Gen(thn, true, parent, false), Gen(els, true, parent, false), true, 0, 0);
    case Logic(isAnd, trg, f, rest) =>
      var G := Gen(rest, true, parent, false);
      NoEscapeNoHoles(rest, true, parent, false);
      BranchNoHoles([Jump(0)], G, G, isAnd, trg, f);
    case While(_, pre, test, r, body) =>
      NoEscapeNoHoles(pre, opt, parent, first);
      LoopNoHoles(Gen(pre, opt, parent, first), TestCode(test, r, FlagAfter(pre, opt), parent), Gen(body, true, parent, false), [], first);
    case DoWhile(_, body, pre, test, r) =>
      var B := Gen(body, opt, parent, first);
      NoEscapeNoHoles(pre, false, parent, first && B == []);
      LoopNoHoles(Gen(pre, false, parent, first && B == []), TestCode(test, r, false, parent), B, [], first);
    case For(_, locals, pre, test, r, incr, body) =>
      NoEscapeNoHoles(pre, false, parent, first);
      LoopNoHoles(Gen(pre, false, parent, first), TestCode(test, r, false, parent), Gen(body, false, parent, false),
          IncrCode(incr, locals, parent), first);
    case Forever(_, locals, incr, body) =>
      ReadyNoHoles([]);
      LoopNoHoles(Cells([]), [Jump(0)], Gen(body, false, parent, first), IncrCode(incr, locals, parent), first);
  }

  lemma ReadyNoHoles(code: seq<Instr>)
    ensures NoHoles(Cells(code)) && Cells([]) == []
  {
  }

  // ----- layouts, as left by emission, patching and closing -----

  lemma CellsLast(T: seq<Instr>)
    requires T != []
    ensures Cells(T) == Cells(T[..|T| - 1]) + [Ready(Last(T))]
  {
  }

  /** Patching the test T of a + T + b. */
  lemma PatchTest(o: Snap, n: Snap, a: seq<Cell>, T: seq<Instr>, b: seq<Cell>, offset: int)
    requires T != [] && Emits(o, n, a + (Cells(T) + b))
    ensures var pos := |o.code| + |a| + |T| - 1;
      && 0 <= pos < |n.code| && n.code[pos] == Last(T)
      && Emits(o, n.(code := n.code[pos := n.code[pos].(a1 := offset)]), a + (Cells(Patch(T, offset)) + b))
  {
    hide Emits;
    var T0 := T[..|T| - 1];
    var P := Patch(T, offset);
    CellsLast(T);
    CellsLast(P);
    assert P[..|P| - 1] == T0 && Last(P) == Last(T).(a1 := offset);
    assert a + (Cells(T) + b) == (a + Cells(T0)) + ([Ready(Last(T))] + b);
    assert a + (Cells(P) + b) == (a + Cells(T0)) + ([Ready(Last(T).(a1 := offset))] + b);
    EmitsPatched(o, n, a + Cells(T0), Last(T), b, offset);
  }

  lemma CloseParts(a: seq<Cell>, body: seq<Cell>, b: seq<Cell>, base: int, brk: int, cont: int)
    requires NoHoles(a) && NoHoles(b)
    ensures CloseAt(a + (body + b), base, brk, cont) == a + (CloseAt(body, base + |a|, brk, cont) + b)
  {
  }

  lemma DoWhileClosed(B: seq<Cell>, P: seq<Cell>, T: seq<Instr>, base: int, brk: int, cont: int)
    requires T != [] && NoHoles(P) && brk == base + |B| + |P| + |T| && cont == base + |B| - 1
    ensures var rest := P + (Cells(Patch(T, 1)) + [Ready(Jump(-1 - |P| - |T| - |B|))]);
      CloseAt(B + rest, base, brk, cont) == LayDoWhile(B, P, T)
  {
    hide Close;
    var T', J := Patch(T, 1), Jump(-1 - |P| - |T| - |B|);
    var rest := P + (Cells(T') + [Ready(J)]);
    RestNoHoles(P, T', J);
    CloseParts([], B, rest, base, brk, cont);
    assert [] + (B + rest) == B + rest;
    assert [] + (Close(B, |B| + |P| + |T|, |B| - 1) + rest) == Close(B, |B| + |P| + |T|, |B| - 1) + rest;
  }

  class State {
    var instructions: seq<Instr>
    var optimization: bool
    var returnexp: int
    var unresolvedbreaks: seq<int>
    var unresolvedcontinues: seq<int>
    const parent: bool

    constructor (parent: bool)
      ensures instructions == [] && optimization && this.parent == parent
      ensures unresolvedbreaks == [] && unresolvedcontinues == []
    {
      this.parent := parent;
      instructions, optimization, returnexp := [], true, 0;
      unresolvedbreaks, unresolvedcontinues := [], [];
    }

    method SnoozeOpt()
      modifies `optimization
      ensures !optimization
    {
      optimization := false;
    }

    function GetCurrentPos(): int
      reads this
    {
      |instructions| - 1
    }

    /** Emission with the peephole rules, on the last instruction in place. */
    method AddInstruction(i: Instr, locals: set<int>)
      modifies `instructions, `optimization
      ensures Buf(instructions, optimization) ==
        Peephole.AddInstruction(Buf(old(instructions), old(optimization) && old(instructions) != []), i, locals, parent, returnexp)
    {
      var size := |instructions|;
      var j := i;
      if size > 0 && optimization {
        var pi := instructions[size - 1];
        if i.op == RETURN && parent && i.a0 != NONE && pi.op == CALL && returnexp < size - 1 {
          instructions := instructions[size - 1 := pi.(op := TAILCALL)];
        } else {
          var merged := Merge(pi, i, locals);
          if merged.Some? {
            instructions := instructions[size - 1 := merged.value];
            if Retargets(pi, i) { optimization := false; }
            return;
          }
          j := DropSelfTarget(i);
        }
      }
      optimization := true;
      instructions := instructions + [j];
    }

    method DiscardTarget(target: int)
      modifies `instructions
      ensures instructions == Act(Buf(old(instructions), optimization), Discard(target), parent).code
    {
      var size := |instructions|;
      if size > 0 && optimization {
        var pi := instructions[size - 1];
        if pi.op in {SET, NEWSLOT, SETOUTER, CALL} && pi.a0 == target {
          instructions := instructions[size - 1 := pi.(a0 := NONE)];
        }
      }
    }

    /** The optimizer has nothing to look back at. */
    ghost predicate Fresh()
      reads this
    {
      optimization && instructions != [] ==> Barrier(Last(instructions))
    }

    ghost function Flag(): bool
      reads this
    {
      optimization && instructions != []
    }

    /** A straight-line piece of code. */
    method EmitLine(items: seq<Item>)
      requires Fresh()
      modifies `instructions, `optimization, `returnexp
      ensures instructions == old(instructions) + Fuse(items, old(Flag()), parent).code
      ensures instructions != [] ==> optimization == Fuse(items, old(Flag()), parent).opt
    {
      hide Fuse, Peephole.AddInstruction, Merge, DropSelfTarget;
      var start := |instructions|;
      ghost var before, flag := instructions, Flag();
      FuseNothing(items, flag, parent);
      for k := 0 to |items|
        invariant instructions == before + Fuse(items[..k], flag, parent).code
        invariant instructions != [] ==> optimization == Fuse(items[..k], flag, parent).opt
        invariant before == [] ==> !flag
        invariant flag ==> before != [] && Barrier(Last(before))
        invariant Fuse(items[..k], flag, parent).code == [] && Fuse(items[..k], flag, parent).opt ==> flag
      {
        ghost var b := Fuse(items[..k], flag, parent);
        FuseNext(items, k, flag, parent);
        match items[k] {
          case Snooze => SnoozeOpt();
          case Discard(target) =>
            DiscardLocal(before, b, target, parent);
            DiscardTarget(target);
          case Emit(i, locals, retStart) =>
            returnexp := start + retStart;
            AddLocal(before, b, i, locals, parent, retStart);
            AddInstruction(i, locals);
        }
      }
      assert items[..|items|] == items;
    }

    // ----- patching -----

    method SetInstructionParam1(pos: int, val: int)
      requires 0 <= pos < |instructions|
      modifies `instructions
      ensures instructions == old(instructions)[pos := old(instructions)[pos].(a1 := val)]
    {
      instructions := instructions[pos := instructions[pos].(a1 := val)];
    }

    method ResolveBreaks(ntoresolve: int)
      requires 0 <= ntoresolve <= |unresolvedbreaks|
      requires forall k :: |unresolvedbreaks| - ntoresolve <= k < |unresolvedbreaks| ==>
        0 <= unresolvedbreaks[k] < |instructions| && instructions[unresolvedbreaks[k]].op == JMP
      modifies `instructions, `unresolvedbreaks
      ensures unresolvedbreaks == old(unresolvedbreaks)[..|old(unresolvedbreaks)| - ntoresolve]
      ensures var ub := old(unresolvedbreaks);
        instructions == Redirect(old(instructions), ub[|ub| - ntoresolve..], |old(instructions)| - 1)
    {
      var n := ntoresolve;
      ghost var ub := unresolvedbreaks;
      while n > 0
        invariant 0 <= n <= ntoresolve && unresolvedbreaks == ub[..|ub| - ntoresolve + n]
        invariant instructions == Redirect(old(instructions), ub[|ub| - ntoresolve + n..], |old(instructions)| - 1)
      {
        var last := |unresolvedbreaks| - 1;
        var pos := unresolvedbreaks[last];
        assert ub[last..] == [pos] + ub[last + 1..];
        unresolvedbreaks := unresolvedbreaks[..last];
        instructions := instructions[pos := Instr(instructions[pos].op, 0, GetCurrentPos() - pos, 0, 0)];
        n := n - 1;
      }
    }

    method ResolveContinues(ntoresolve: int, targetpos: int)
      requires 0 <= ntoresolve <= |unresolvedcontinues|
      requires forall k :: |unresolvedcontinues| - ntoresolve <= k < |unresolvedcontinues| ==>
        0 <= unresolvedcontinues[k] < |instructions| && instructions[unresolvedcontinues[k]].op == JMP
      modifies `instructions, `unresolvedcontinues
      ensures unresolvedcontinues == old(unresolvedcontinues)[..|old(unresolvedcontinues)| - ntoresolve]
      ensures var uc := old(unresolvedcontinues);
        instructions == Redirect(old(instructions), uc[|uc| - ntoresolve..], targetpos)
    {
      var n := ntoresolve;
      ghost var uc := unresolvedcontinues;
      while n > 0
        invariant 0 <= n <= ntoresolve && unresolvedcontinues == uc[..|uc| - ntoresolve + n]
        invariant instructions == Redirect(old(instructions), uc[|uc| - ntoresolve + n..], targetpos)
      {
        var last := |unresolvedcontinues| - 1;
        var pos := unresolvedcontinues[last];
        assert uc[last..] == [pos] + uc[last + 1..];
        unresolvedcontinues := unresolvedcontinues[..last];
        instructions := instructions[pos := Instr(instructions[pos].op, 0, targetpos - pos, 0, 0)];
        n := n - 1;
      }
    }

    // ----- statements and expressions -----

    ghost function Now(): Snap
      reads this
    {
      Snap(instructions, unresolvedbreaks, unresolvedcontinues)
    }

    /** Instructions that no rule looks at are simply appended. */
    method EmitJump(i: Instr)
      requires i.op in {JMP, AND, OR}
      modifies `instructions, `optimization
      ensures instructions == old(instructions) + [i] && optimization
      ensures Emits(old(Now()), Now(), [Ready(i)])
    {
      AddInstruction(i, {});
      EmitsReady(old(Now()), Now(), [i]);
      assert Cells([i]) == [Ready(i)];
    }

    method EmitTest(test: seq<Item>, r: Byte, ghost flag: bool)
      requires Fresh() && StraightItems(test) && flag == Flag()
      modifies `instructions, `optimization, `returnexp
      ensures instructions == old(instructions) + TestCode(test, r, flag, parent) && Fresh() && Flag()
      ensures Emits(old(Now()), Now(), Cells(TestCode(test, r, flag, parent)))
    {
      EmitLine(TestItems(test, r));
      TestShape(test, r, flag, parent);
      TestKeepsFlag(test, r, flag, parent);
      EmitsReady(old(Now()), Now(), TestCode(test, r, flag, parent));
    }

    /** Code generation for structured code leaves its layout. */
    method Compile(c: Code)
      requires Fresh() && Plain(c)
      modifies this
      ensures Emits(old(Now()), Now(), Gen(c, old(Flag()), parent, old(instructions) == []))
      decreases c, 1
    {
      ghost var o, flag, first := Now(), Flag(), instructions == [];
      match c {
        case Nil => EmitsReady(o, Now(), []);
        case Line(items) =>
          EmitLine(items);
          EmitsReady(o, Now(), Fuse(items, flag, parent).code);
        case Seq(a, b) =>
          Compile(a);
          SnoozeOpt();
          ghost var m := Now();
          Compile(b);
          EmitsJoin(o, m, Now(), Gen(a, flag, parent, first), Gen(b, false, parent, first && Gen(a, flag, parent, first) == []));
        case If(test, r, thn) => IfStatement(test, r, thn);
        case IfElse(test, r, thn, els) => IfElseStatement(test, r, thn, els);
        case Logic(isAnd, trg, f, rest) => LogicalExp(isAnd, trg, f, rest);
        case While(n, pre, test, r, body) => WhileStatement(n, pre, test, r, body);
        case DoWhile(n, body, pre, test, r) => DoWhileStatement(n, body, pre, test, r);
        case For(n, locals, pre, test, r, incr, body) => ForStatement(n, locals, pre, test, r, incr, body);
        case Forever(n, locals, incr, body) => ForeverStatement(n, locals, incr, body);
        case Break => BreakStatement();
        case Continue => ContinueStatement();
      }
    }

    method BreakStatement()
      modifies `instructions, `optimization, `unresolvedbreaks
      ensures Emits(old(Now()), Now(), [BreakHole])
    {
      EmitJump(Jump(UNRESOLVED));
      unresolvedbreaks := unresolvedbreaks + [GetCurrentPos()];
    }

    method ContinueStatement()
      modifies `instructions, `optimization, `unresolvedcontinues
      ensures Emits(old(Now()), Now(), [ContinueHole])
    {
      EmitJump(Jump(UNRESOLVED));
      unresolvedcontinues := unresolvedcontinues + [GetCurrentPos()];
    }

    method IfStatement(test: seq<Item>, r: Byte, thn: Code)
      requires Fresh() && Plain(If(test, r, thn))
      modifies this
      ensures Emits(old(Now()), Now(), LayIf(TestCode(test, r, old(Flag()), parent), Gen(thn, true, parent, false)))
      decreases If(test, r, thn), 0
    {
      hide Emits, Gen, TestCode;
      ghost var o, T := Now(), TestCode(test, r, Flag(), parent);
      EmitTest(test, r, Flag());
      var jnepos := GetCurrentPos();
      ghost var m1, G := Now(), Gen(thn, true, parent, false);
      Compile(thn);
      ghost var m2 := Now();
      EmitsJoin(o, m1, m2, Cells(T), G);
      EmitsSize(o, m2, Cells(T) + G);
      assert [] + (Cells(T) + G) == Cells(T) + G && [] + (Cells(Patch(T, |G|)) + G) == Cells(Patch(T, |G|)) + G;
      PatchTest(o, m2, [], T, G, |G|);
      SetInstructionParam1(jnepos, GetCurrentPos() - jnepos);
    }

    method IfElseStatement(test: seq<Item>, r: Byte, thn: Code, els: Code)
      requires Fresh() && Plain(IfElse(test, r, thn, els))
      modifies this
      ensures Emits(old(Now()), Now(), LayIfElse(TestCode(test, r, old(Flag()), parent), Gen(thn, true, parent, false),
          Gen(els, true, parent, false)))
      decreases IfElse(test, r, thn, els), 0
    {
      hide Emits, Gen, TestCode;
      ghost var o, T := Now(), TestCode(test, r, Flag(), parent);
      EmitTest(test, r, Flag());
      var jnepos := GetCurrentPos();
      ghost var m1, G, E := Now(), Gen(thn, true, parent, false), Gen(els, true, parent, false);
      Compile(thn);
      var endifblock := GetCurrentPos();
      ghost var m2, rest := Now(), G + ([Ready(Jump(|E|))] + E);
      ElseBranch(els);
      ghost var m5 := Now();
      EmitsSize(m1, m2, G);
      EmitsJoin(m1, m2, m5, G, [Ready(Jump(|E|))] + E);
      EmitsJoin(o, m1, m5, Cells(T), rest);
      assert [] + (Cells(T) + rest) == Cells(T) + rest && [] + (Cells(Patch(T, |G| + 1)) + rest) == Cells(Patch(T, |G| + 1)) + rest;
      PatchTest(o, m5, [], T, rest, |G| + 1);
      SetInstructionParam1(jnepos, endifblock - jnepos + 1);
    }

    /** The jump over the else branch, patched once the branch is there. */
    method ElseBranch(els: Code)
      requires Plain(els)
      modifies this
      ensures var E := Gen(els, true, parent, false); Emits(old(Now()), Now(), [Ready(Jump(|E|))] + E)
      decreases els, 2
    {
      hide Emits, Gen;
      ghost var m2, E := Now(), Gen(els, true, parent, false);
      EmitJump(Jump(0));
      var jmppos := GetCurrentPos();
      ghost var m3 := Now();
      Compile(els);
      ghost var m4 := Now();
      EmitsSize(m3, m4, E);
      EmitsJoin(m2, m3, m4, [Ready(Jump(0))], E);
      assert [] + ([Ready(Jump(0))] + E) == [Ready(Jump(0))] + E && [] + ([Ready(Jump(|E|))] + E) == [Ready(Jump(|E|))] + E;
      EmitsPatched(m2, m4, [], Jump(0), E, |E|);
      SetInstructionParam1(jmppos, GetCurrentPos() - jmppos);
    }

    /** The operators && and ||: the jump over the second operand lands where the optimizer is asleep. */
    method LogicalExp(isAnd: bool, trg: Byte, f: Byte, rest: Code)
      requires Plain(rest)
      modifies this
      ensures Emits(old(Now()), Now(), LayLogic(isAnd, trg, f, Gen(rest, true, parent, false)))
      decreases Logic(isAnd, trg, f, rest), 0
    {
      hide Emits, Gen;
      ghost var o, R := Now(), Gen(rest, true, parent, false);
      var i := Instr(if isAnd then AND else OR, trg, 0, f, 0);
      EmitJump(i);
      var jpos := GetCurrentPos();
      ghost var m1 := Now();
      Compile(rest);
      SnoozeOpt();
      ghost var m2 := Now();
      EmitsSize(m1, m2, R);
      EmitsJoin(o, m1, m2, [Ready(i)], R);
      assert [] + ([Ready(i)] + R) == [Ready(i)] + R && [] + ([Ready(i.(a1 := |R|))] + R) == [Ready(i.(a1 := |R|))] + R;
      EmitsPatched(o, m2, [], i, R, |R|);
      SetInstructionParam1(jpos, GetCurrentPos() - jpos);
    }

    /** The end of a breakable block: continues first, then breaks, which go to the current position. */
    method EndBreakableBlock(ncontinues: int, nbreaks: int, continuetarget: int, ghost o: Snap, ghost cells: seq<Cell>)
      requires Emits(o, Now(), cells) && ncontinues == |o.conts| && nbreaks == |o.brks|
      modifies `instructions, `unresolvedbreaks, `unresolvedcontinues
      ensures Emits(o, Now(), CloseAt(cells, |o.code|, |old(instructions)| - 1, continuetarget))
    {
      hide Emits;
      ghost var n := Now();
      EmitsClosed(o, n, cells, |instructions| - 1, continuetarget);
      HolePositions(o, n, cells);
      ResolveContinues(|unresolvedcontinues| - ncontinues, continuetarget);
      assert unresolvedcontinues == o.conts;
      ghost var once := Redirect(n.code, n.conts[|o.conts|..], continuetarget);
      assert instructions == once;
      ResolveBreaks(|unresolvedbreaks| - nbreaks);
      assert unresolvedbreaks == o.brks && instructions == Redirect(once, n.brks[|o.brks|..], |n.code| - 1);
    }

    /** A loop condition; the optimizer is put to sleep after logical operators. */
    method EmitCondition(pre: Code, test: seq<Item>, r: Byte, ghost flag: bool, ghost first: bool)
      requires Fresh() && Plain(pre) && NoEscape(pre) && StraightItems(test)
      requires flag == Flag() && first == (instructions == [])
      modifies this
      ensures Fresh() && Flag()
      ensures var P, T := Gen(pre, flag, parent, first), TestCode(test, r, FlagAfter(pre, flag), parent);
        Emits(old(Now()), Now(), P + Cells(T)) && NoHoles(P)
      decreases pre, 2
    {
      hide Emits, TestCode, Fuse;
      ghost var o := Now();
      if pre.Nil? {
        EmitsReady(o, o, []);
      } else {
        Compile(pre);
        SnoozeOpt();
      }
      ghost var m := Now();
      NoEscapeNoHoles(pre, flag, parent, first);
      EmitTest(test, r, FlagAfter(pre, flag));
      EmitsJoin(o, m, Now(), Gen(pre, flag, parent, first), Cells(TestCode(test, r, FlagAfter(pre, flag), parent)));
    }

    method WhileStatement(n: nat, pre: Code, test: seq<Item>, r: Byte, body: Code)
      requires Fresh() && Plain(While(n, pre, test, r, body))
      modifies this
      ensures var P := Gen(pre, old(Flag()), parent, old(instructions) == []);
        Emits(old(Now()), Now(), LayWhile(P, TestCode(test, r, FlagAfter(pre, old(Flag())), parent), Gen(body, true, parent, false)))
      decreases While(n, pre, test, r, body), 0
    {
      hide Emits, Gen, TestCode, Close;
      ghost var o, flag, first := Now(), Flag(), instructions == [];
      ghost var P, T, B := Gen(pre, flag, parent, first), TestCode(test, r, FlagAfter(pre, flag), parent), Gen(body, true, parent, false);
      var jmppos := GetCurrentPos();
      EmitCondition(pre, test, r, flag, first);
      ghost var m1 := Now();
      EmitsSize(o, m1, P + Cells(T));
      CondNoHoles(P, T);
      var nbreaks, ncontinues := |unresolvedbreaks|, |unresolvedcontinues|;
      var jzpos := GetCurrentPos();
      Compile(body);
      ghost var m2 := Now();
      EmitsSize(m1, m2, B);
      ghost var J := Jump(-1 - |P| - |T| - |B|);
      EmitJump(Jump(jmppos - GetCurrentPos() - 1));
      ghost var m3 := Now();
      EmitsJoin(m1, m2, m3, B, [Ready(J)]);
      EmitsJoin(o, m1, m3, P + Cells(T), B + [Ready(J)]);
      assert (P + Cells(T)) + (B + [Ready(J)]) == P + (Cells(T) + (B + [Ready(J)]));
      PatchTest(o, m3, P, T, B + [Ready(J)], |B| + 1);
      SetInstructionParam1(jzpos, GetCurrentPos() - jzpos);
      ghost var T' := Patch(T, |B| + 1);
      ghost var cells := P + (Cells(T') + (B + [Ready(J)]));
      EndBreakableBlock(ncontinues, nbreaks, jmppos, o, cells);
      assert cells == (P + Cells(T')) + (B + [Ready(J)]);
      CondNoHoles(P, T');
      CloseParts(P + Cells(T'), B, [Ready(J)], |o.code|, |o.code| + |P| + |T| + |B|, jmppos);
      var closed := Close(B, |B|, -1 - |P| - |T|) + [Ready(J)];
      assert (P + Cells(T')) + closed == P + (Cells(T') + closed);
    }

    method DoWhileStatement(n: nat, body: Code, pre: Code, test: seq<Item>, r: Byte)
      requires Fresh() && Plain(DoWhile(n, body, pre, test, r))
      modifies this
      ensures var B := Gen(body, old(Flag()), parent, old(instructions) == []);
        Emits(old(Now()), Now(), LayDoWhile(B, Gen(pre, false, parent, old(instructions) == [] && B == []),
            TestCode(test, r, false, parent)))
      decreases DoWhile(n, body, pre, test, r), 0
    {
      hide Emits, Gen, TestCode, Close;
      ghost var o, flag, first := Now(), Flag(), instructions == [];
      ghost var B := Gen(body, flag, parent, first);
      ghost var P, T := Gen(pre, false, parent, first && B == []), TestCode(test, r, false, parent);
      var nbreaks, ncontinues := |unresolvedbreaks|, |unresolvedcontinues|;
      var jmptrg := GetCurrentPos();
      Compile(body);
      SnoozeOpt();
      var continuetrg := GetCurrentPos();
      ghost var m := Now();
      EmitsSize(o, m, B);
      EmitBackTest(pre, test, r, jmptrg, first && B == []);
      ghost var rest := P + (Cells(Patch(T, 1)) + [Ready(Jump(-1 - |P| - |T| - |B|))]);
      EmitsJoin(o, m, Now(), B, rest);
      EmitsSize(o, Now(), B + rest);
      EndBreakableBlock(ncontinues, nbreaks, continuetrg, o, B + rest);
      DoWhileClosed(B, P, T, |o.code|, |o.code| + |B + rest| - 1, continuetrg);
    }

    /** The test of a do-while and the jump back; the test's own jump skips just that one. */
    method EmitBackTest(pre: Code, test: seq<Item>, r: Byte, jmptrg: int, ghost first: bool)
      requires !optimization && Plain(pre) && NoEscape(pre) && StraightItems(test) && first == (instructions == [])
      modifies this
      ensures var P, T := Gen(pre, false, parent, first), TestCode(test, r, false, parent);
        && NoHoles(P)
        && Emits(old(Now()), Now(), P + (Cells(Patch(T, 1)) + [Ready(Jump(jmptrg - |old(instructions)| - |P| - |T|))]))
      decreases pre, 3
    {
      hide Emits, Gen, TestCode;
      ghost var o := Now();
      ghost var P, T := Gen(pre, false, parent, first), TestCode(test, r, false, parent);
      EmitCondition(pre, test, r, false, first);
      EmitsSize(o, Now(), P + Cells(T));
      var jzpos := GetCurrentPos();
      assert P + Cells(T) == P + (Cells(T) + []);
      PatchTest(o, Now(), P, T, [], 1);
      SetInstructionParam1(jzpos, 1);
      ghost var m, J := Now(), Jump(jmptrg - |o.code| - |P| - |T|);
      EmitJump(Jump(jmptrg - GetCurrentPos() - 1));
      EmitsJoin(o, m, Now(), P + (Cells(Patch(T, 1)) + []), [Ready(J)]);
      assert (P + (Cells(Patch(T, 1)) + [])) + [Ready(J)] == P + (Cells(Patch(T, 1)) + [Ready(J)]);
    }

    /** The increment is emitted, taken away, and given back for a second emission after the body. */
    method TakeIncrement(incr: seq<Item>) returns (exp: seq<Instr>)
      requires !optimization
      modifies `instructions, `optimization, `returnexp
      ensures instructions == old(instructions) && !optimization
      ensures exp == Fuse(incr, false, parent).code
    {
      var expstart := GetCurrentPos() + 1;
      EmitLine(incr);
      SnoozeOpt();
      exp := instructions[expstart..];
      instructions := instructions[..expstart];
    }

    /** Body, increment and closing jump of a for loop whose head is just after position jmppos. */
    method ForBody(locals: set<int>, exp: seq<Instr>, body: Code, jmppos: int, ghost incr: seq<Item>,
          ghost first: bool) returns (continuetrg: int)
      requires !optimization && Plain(body) && first == (instructions == []) && exp == Fuse(incr, false, parent).code
      modifies this
      ensures var B, I := Gen(body, false, parent, first), IncrCode(incr, locals, parent);
        && Emits(old(Now()), Now(), B + (Cells(I) + [Ready(Jump(jmppos - |old(instructions)| - |B| - |I|))]))
        && continuetrg == |old(instructions)| + |B| - 1
      decreases body, 2
    {
      hide Emits, Gen, Fuse;
      ghost var o, B, I := Now(), Gen(body, false, parent, first), IncrCode(incr, locals, parent);
      Compile(body);
      SnoozeOpt();
      continuetrg := GetCurrentPos();
      ghost var m1 := Now();
      EmitsSize(o, m1, B);
      EmitLine(ReEmit(exp, locals));
      ghost var m2 := Now();
      EmitsReady(m1, m2, I);
      EmitsSize(m1, m2, Cells(I));
      ghost var J := Jump(jmppos - |o.code| - |B| - |I|);
      EmitJump(Jump(jmppos - GetCurrentPos() - 1));
      EmitsJoin(m1, m2, Now(), Cells(I), [Ready(J)]);
      EmitsJoin(o, m1, Now(), B, Cells(I) + [Ready(J)]);
    }

    method ForeverStatement(n: nat, locals: set<int>, incr: seq<Item>, body: Code)
      requires Plain(Forever(n, locals, incr, body))
      modifies this
      ensures Emits(old(Now()), Now(), LayForever(Gen(body, false, parent, old(instructions) == []), IncrCode(incr, locals, parent), 0))
      decreases Forever(n, locals, incr, body), 0
    {
      hide Emits, Gen, IncrCode, Close, Fuse;
      ghost var o, first := Now(), instructions == [];
      SnoozeOpt();
      var jmppos := GetCurrentPos();
      var exp := TakeIncrement(incr);
      var nbreaks, ncontinues := |unresolvedbreaks|, |unresolvedcontinues|;
      var continuetrg := ForBody(locals, exp, body, jmppos, incr, first);
      ghost var B, I := Gen(body, false, parent, first), IncrCode(incr, locals, parent);
      ghost var J := Jump(-1 - |B| - |I|);
      ghost var rest := Cells(I) + [Ready(J)];
      EmitsSize(o, Now(), B + rest);
      assert [] + (B + rest) == B + rest;
      EndBreakableBlock(ncontinues, nbreaks, continuetrg, o, [] + (B + rest));
      CondNoHoles([], I);
      CondNoHoles(Cells(I), [J]);
      assert Cells([J]) == [Ready(J)];
      CloseParts([], B, rest, |o.code|, |o.code| + |B| + |I|, continuetrg);
      assert [] + (Close(B, |B| + |I|, |B| - 1) + rest) == Close(B, |B| + |I|, |B| - 1) + rest;
    }

    /** The test is patched only when its position is positive. */
    method ForStatement(n: nat, locals: set<int>, pre: Code, test: seq<Item>, r: Byte, incr: seq<Item>, body: Code)
      requires Plain(For(n, locals, pre, test, r, incr, body))
      modifies this
      ensures var first := old(instructions) == [];
        Emits(old(Now()), Now(), LayFor(first, Gen(pre, false, parent, first), TestCode(test, r, false, parent),
            Gen(body, false, parent, false), IncrCode(incr, locals, parent)))
      decreases For(n, locals, pre, test, r, incr, body), 0
    {
      hide Emits, Gen, TestCode, IncrCode, Close, CloseAt, LayForever, Patch, Fuse;
      ghost var o, first := Now(), instructions == [];
      SnoozeOpt();
      var jmppos := GetCurrentPos();
      ghost var P, T := Gen(pre, false, parent, first), TestCode(test, r, false, parent);
      EmitCondition(pre, test, r, false, first);
      var jzpos := GetCurrentPos();
      ghost var m1 := Now();
      EmitsSize(o, m1, P + Cells(T));
      CondNoHoles(P, T);
      SnoozeOpt();
      var exp := TakeIncrement(incr);
      var nbreaks, ncontinues := |unresolvedbreaks|, |unresolvedcontinues|;
      var continuetrg := ForBody(locals, exp, body, jmppos, incr, false);
      ghost var B, I := Gen(body, false, parent, false), IncrCode(incr, locals, parent);
      ghost var J := Jump(-1 - (|P| + |T|) - |B| - |I|);
      ghost var rest, m2 := Cells(I) + [Ready(J)], Now();
      EmitsSize(m1, m2, B + rest);
      EmitsJoin(o, m1, m2, P + Cells(T), B + rest);
      assert (P + Cells(T)) + (B + rest) == P + (Cells(T) + (B + rest));
      ghost var T' := if first && |P| + |T| == 1 then T else Patch(T, |B| + |I| + 1);
      if jzpos > 0 {
        PatchTest(o, m2, P, T, B + rest, |B| + |I| + 1);
        SetInstructionParam1(jzpos, GetCurrentPos() - jzpos);
      }
      EndBreakableBlock(ncontinues, nbreaks, continuetrg, o, P + (Cells(T') + (B + rest)));
      ForClosed(P, T', B, I, |o.code|);
    }
  }

  lemma ForClosed(P: seq<Cell>, T: seq<Instr>, B: seq<Cell>, I: seq<Instr>, base: int)
    requires NoHoles(P)
    ensures var J := Jump(-1 - (|P| + |T|) - |B| - |I|);
      CloseAt(P + (Cells(T) + (B + (Cells(I) + [Ready(J)]))), base, base + |P| + |T| + |B| + |I|, base + |P| + |T| + |B| - 1) ==
        P + (Cells(T) + LayForever(B, I, |P| + |T|))
  {
    hide Close;
    var J := Jump(-1 - (|P| + |T|) - |B| - |I|);
    var rest := Cells(I) + [Ready(J)];
    assert P + (Cells(T) + (B + rest)) == (P + Cells(T)) + (B + rest);
    CondNoHoles(P, T);
    CondNoHoles([], I);
    CondNoHoles(Cells(I), [J]);
    assert Cells([J]) == [Ready(J)];
    CloseParts(P + Cells(T), B, rest, base, base + |P| + |T| + |B| + |I|, base + |P| + |T| + |B| - 1);
    assert (P + Cells(T)) + (Close(B, |B| + |I|, |B| - 1) + rest) == P + (Cells(T) + (Close(B, |B| + |I|, |B| - 1) + rest));
  }

  lemma RestNoHoles(P: seq<Cell>, T: seq<Instr>, J: Instr)
    requires NoHoles(P)
    ensures NoHoles(P + (Cells(T) + [Ready(J)]))
  {
  }

  lemma CondNoHoles(P: seq<Cell>, T: seq<Instr>)
    requires NoHoles(P)
    ensures NoHoles(P + Cells(T)) && NoHoles(Cells(T))
  {
  }

  lemma HolePositions(o: Snap, n: Snap, cells: seq<Cell>)
    requires Emits(o, n, cells)
    ensures o.brks <= n.brks && o.conts <= n.conts
    ensures forall k :: |o.brks| <= k < |n.brks| ==> 0 <= n.brks[k] < |n.code| && n.code[n.brks[k]].op == JMP
    ensures forall k :: |o.conts| <= k < |n.conts| ==> 0 <= n.conts[k] < |n.code| && n.code[n.conts[k]].op == JMP
  {
    forall k | |o.brks| <= k < |n.brks| ensures 0 <= n.brks[k] < |n.code| && n.code[n.brks[k]].op == JMP {
      assert n.code[n.brks[k]] == Placeholders(cells)[n.brks[k] - |o.code|];
    }
    forall k | |o.conts| <= k < |n.conts| ensures 0 <= n.conts[k] < |n.code| && n.code[n.conts[k]].op == JMP {
      assert n.code[n.conts[k]] == Placeholders(cells)[n.conts[k] - |o.code|];
    }
  }

  lemma EmitsSize(o: Snap, n: Snap, cells: seq<Cell>)
    requires Emits(o, n, cells)
    ensures |n.code| == |o.code| + |cells|
    ensures NoHoles(cells) ==> n.brks == o.brks && n.conts == o.conts
  {
    if |n.brks| > |o.brks| {
      var j := n.brks[|o.brks|] - |o.code|;
      assert cells[j] == BreakHole;
    }
    if |n.conts| > |o.conts| {
      var j := n.conts[|o.conts|] - |o.code|;
      assert cells[j] == ContinueHole;
    }
  }

  lemma TestKeepsFlag(test: seq<Item>, r: Byte, opt: bool, parent: bool)
    requires StraightItems(test)
    ensures Fuse(TestItems(test, r), opt, parent).opt
  {
    var items := TestItems(test, r);
    assert items[..|items| - 1] == test;
  }

  /** Code that keeps the discipline is of the shape the compiler emits, and outside a loop it has no
      break or continue of its own. */
  lemma {:induction false} FlowIsPlain(c: Code, opt: bool, parent: bool, first: bool, A: set<int>, pact: Pact, lim: Option<nat>)
    requires Flow(c, opt, parent, first, A, pact, lim).Some?
    ensures Plain(c) && (lim.None? ==> NoEscape(c))
    decreases c, 1
  {
    hide FlowItems, Fuse, Gen, FlowCond, FlowIncr;
    match c
    case Seq(a, b) =>
      FlowIsPlain(a, opt, parent, first, A, pact, lim);
      var X := Flow(a, opt, parent, first, A, pact, lim).value;
      FlowIsPlain(b, false, parent, first && Gen(a, opt, parent, first) == [], X, pact, lim);
    case If(test, r, thn) =>
      FlowIsPlain(thn, true, parent, false, FlowTest(test, r, opt, parent, A, pact).value, pact, lim);
    case IfElse(test, r, thn, els) =>
      var T := FlowTest(test, r, opt, parent, A, pact).value;
      FlowIsPlain(thn, true, parent, false, T, pact, lim);
      FlowIsPlain(els, true, parent, false, T, pact, lim);
    case Logic(_, _, _, rest) => FlowIsPlain(rest, true, parent, false, A, pact, lim);
    case While(_, _, _, _, _) => LoopIsPlain(c, opt, parent, first, A, pact, lim);
    case DoWhile(_, _, _, _, _) => LoopIsPlain(c, opt, parent, first, A, pact, lim);
    case For(_, _, _, _, _, _, _) => ForIsPlain(c, opt, parent, first, A, pact, lim);
    case Forever(_, _, _, _) => ForIsPlain(c, opt, parent, first, A, pact, lim);
    case _ =>
  }

  lemma {:induction false} LoopIsPlain(c: Code, opt: bool, parent: bool, first: bool, A: set<int>, pact: Pact, lim: Option<nat>)
    requires (c.While? || c.DoWhile?) && Flow(c, opt, parent, first, A, pact, lim).Some?
    ensures Plain(c) && NoEscape(c)
    decreases c, 0
  {
    hide FlowItems, Fuse, Gen;
    var H := Range(0, c.n);
    match c
    case While(n, pre, test, r, body) =>
      FlowIsPlain(pre, opt, parent, first, H, pact, None);
      var T := FlowCond(pre, test, r, opt, FlagAfter(pre, opt), parent, first, H, pact).value;
      FlowIsPlain(body, true, parent, false, T, pact, Some(n));
    case DoWhile(n, body, pre, test, r) =>
      FlowIsPlain(body, opt, parent, first, H, pact, Some(n));
      FlowIsPlain(pre, false, parent, first && Gen(body, opt, parent, first) == [], H, pact, None);
  }

  lemma {:induction false} ForIsPlain(c: Code, opt: bool, parent: bool, first: bool, A: set<int>, pact: Pact, lim: Option<nat>)
    requires (c.For? || c.Forever?) && Flow(c, opt, parent, first, A, pact, lim).Some?
    ensures Plain(c) && NoEscape(c)
    decreases c, 0
  {
    hide FlowItems, Fuse, Gen;
    var H := Range(0, c.n);
    match c
    case For(n, locals, pre, test, r, incr, body) =>
      FlowIsPlain(pre, false, parent, first, H, pact, None);
      var T := FlowCond(pre, test, r, false, false, parent, first, H, pact).value;
      FlowIsPlain(body, false, parent, false, T, pact, Some(n));
    case Forever(n, locals, incr, body) =>
      FlowIsPlain(body, false, parent, first, H, pact, Some(n));
  }

  /** With no hole left, what has been emitted is the finished program. */
  lemma WholeProgram(c: Code, parent: bool)
    requires NoEscape(c)
    ensures Placeholders(Gen(c, false, parent, true)) == Compiler.Program(c, parent)
  {
    hide Gen;
    NoEscapeNoHoles(c, false, parent, true);
    var cells := Gen(c, false, parent, true);
    forall i | 0 <= i < |cells| ensures Placeholders(cells)[i] == Compiler.Program(c, parent)[i] { }
  }

  /** Compiling a function body from scratch leaves the program that is proved right. */
  method CompileFunction(c: Code, parent: bool) returns (code: seq<Instr>)
    requires Plain(c) && NoEscape(c)
    ensures code == Compiler.Program(c, parent)
  {
    hide Gen, Plain, Compiler.Program;
    var fs := new State(parent);
    fs.Compile(c);
    WholeProgram(c, parent);
    code := fs.instructions;
    assert [] + Placeholders(Gen(c, false, parent, true)) == Placeholders(Gen(c, false, parent, true));
  }

  /** Compile, then run: for every disciplined function body, lawful environment and agreeing start states,
      the code the compiler emits finishes if and only if the source does, and in the same way. */
  method CompileAndRun<V(!new), W(!new)>(c: Code, parent: bool, ghost env: Env<V, W>, ghost A: set<int>,
        ghost pact: Pact, ghost s: Bytecode.State<V, W>, ghost t: Bytecode.State<V, W>)
    returns (code: seq<Instr>)
    requires Flow(c, false, parent, true, A, pact, None).Some? && Agree(A, s, t)
    requires Lawful(env) && !env.watch && (pact.sure ==> Watch.NoSlip(env, c, s))
    ensures Compiler.Faithful(env, c, code, Flow(c, false, parent, true, A, pact, None).value, pact, s, t)
  {
    hide Flow, Plain, NoEscape, Compiler.Program, Lawful, Compiler.Faithful, Watch.NoSlip;
    FlowIsPlain(c, false, parent, true, A, pact, None);
    code := CompileFunction(c, parent);
    Compiler.CompiledRight(env, c, parent, A, pact, s, t);
  }
}
