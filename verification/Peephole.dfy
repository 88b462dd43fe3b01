/** The peephole optimizer that runs inside instruction emission: a new
    instruction may be merged into the previous one, in place. */
module Peephole {
  import opened Common
  import opened Bytecode

  /** One act of the code generator: emit an instruction while the registers in `locals`
      carry names and the enclosing return expression starts at `retStart`, stop the
      optimizer from looking back, or throw away the value in a temporary. */
  datatype Item = Emit(i: Instr, locals: set<int>, retStart: int) | Snooze | Discard(target: int)

  /** Code emitted so far, and whether the optimizer may look at its last instruction. */
  datatype Buf = Buf(code: seq<Instr>, opt: bool)

  function Cast(x: int): Byte { x % 256 }

  function Last(code: seq<Instr>): Instr
    requires code != []
  {
    code[|code| - 1]
  }

  function ReplaceLast(code: seq<Instr>, i: Instr): seq<Instr>
    requires code != []
  {
    code[..|code| - 1] + [i]
  }

  // ----- the rules -----

  function AppendKind(op: Op): Option<Byte> {
    match op
    case LOAD => Some(AAT_LITERAL)
    case LOADINT => Some(AAT_INT)
    case LOADBOOL => Some(AAT_BOOL)
    case LOADFLOAT => Some(AAT_FLOAT)
    case _ => None
  }

  predicate Retargetable(op: Op) {
    op in {GET, ADD, SUB, MUL, DIV, MOD, BITW, LOADINT, LOADFLOAT, LOADBOOL, LOAD}
  }

  predicate Retargets(p: Instr, i: Instr) {
    i.op == MOVE && Retargetable(p.op) && p.a0 == i.a1
  }

  predicate LoadedFor(p: Instr, r: int, locals: set<int>) {
    p.op == LOAD && p.a0 == r && p.a0 !in locals
  }

  /** What the previous instruction p becomes when i is merged into it. */
  function Merge(p: Instr, i: Instr, locals: set<int>): Option<Instr> {
    match i.op
    case JZ => if p.op == CMP && p.a1 < NONE then Some(Instr(JCMP, Cast(p.a1), i.a1, p.a2, p.a3)) else None
    case GET => if LoadedFor(p, i.a2, locals) then Some(Instr(GETK, i.a0, p.a1, Cast(i.a1), p.a3)) else None
    case PREPCALL => if LoadedFor(p, i.a1, locals) then Some(Instr(PREPCALLK, i.a0, p.a1, i.a2, i.a3)) else None
    case APPENDARRAY =>
      if AppendKind(p.op).Some? && p.a0 == i.a1 && p.a0 !in locals
      then Some(Instr(APPENDARRAY, i.a0, p.a1, AppendKind(p.op).value, NONE)) else None
    case MOVE =>
      if Retargets(p, i) then Some(p.(a0 := i.a0))
      else if p.op == MOVE then Some(Instr(DMOVE, p.a0, p.a1, i.a0, Cast(i.a1))) else None
    case LOAD => if p.op == LOAD && i.a1 < 256 then Some(Instr(DLOAD, p.a0, p.a1, i.a0, Cast(i.a1))) else None
    case EQ | NE => if LoadedFor(p, i.a1, locals) then Some(Instr(i.op, i.a0, p.a1, i.a2, NONE)) else None
    case LOADNULLS => if p.op == LOADNULLS && p.a0 + p.a1 == i.a0 then Some(p.(a1 := p.a1 + 1)) else None
    case RETURN => if p.op == CLOSE then Some(i) else None
    case _ => None
  }

  /** A store whose result register already holds the stored value needs no target. */
  function DropSelfTarget(i: Instr): Instr {
    if i.op in {SET, NEWSLOT} && i.a0 == i.a3 then i.(a0 := NONE)
    else if i.op == SETOUTER && i.a0 == i.a2 then i.(a0 := NONE)
    else i
  }

  predicate TailCalls(code: seq<Instr>, i: Instr, parent: bool, retStart: int) {
    code != [] && parent && i.op == RETURN && i.a0 != NONE && Last(code).op == CALL && retStart < |code| - 1
  }

  function AddInstruction(b: Buf, i: Instr, locals: set<int>, parent: bool, retStart: int): (r: Buf)
    ensures |b.code| <= |r.code| && r.code != []
  {
    if !b.opt then Buf(b.code + [i], true)
    else if b.code == [] then Buf([DropSelfTarget(i)], true)
    else if TailCalls(b.code, i, parent, retStart) then
      Buf(ReplaceLast(b.code, Last(b.code).(op := TAILCALL)) + [i], true)
    else
      match Merge(Last(b.code), i, locals)
      case Some(f) => Buf(ReplaceLast(b.code, f), !Retargets(Last(b.code), i))
      case None => Buf(b.code + [DropSelfTarget(i)], true)
  }

  predicate Discards(b: Buf, target: int) {
    b.opt && b.code != [] && Last(b.code).op in {SET, NEWSLOT, SETOUTER, CALL} && Last(b.code).a0 == target
  }

  function Act(b: Buf, item: Item, parent: bool): Buf {
    match item
    case Emit(i, locals, retStart) => AddInstruction(b, i, locals, parent, retStart)
    case Snooze => b.(opt := false)
    case Discard(target) => if Discards(b, target) then b.(code := ReplaceLast(b.code, Last(b.code).(a0 := NONE))) else b
  }

  /** The code a sequence of acts leaves, with the optimizer on. */
  function Fuse(items: seq<Item>, opt: bool, parent: bool): Buf {
    if items == [] then Buf([], opt)
    else Act(Fuse(items[..|items| - 1], opt, parent), items[|items| - 1], parent)
  }

  /** The same acts with the optimizer off. */
  function Unfused(items: seq<Item>): seq<Instr> {
    if items == [] then []
    else
      var last := items[|items| - 1];
      Unfused(items[..|items| - 1]) + if last.Emit? then [last.i] else []
  }

  lemma FuseSnoc(items: seq<Item>, item: Item, opt: bool, parent: bool)
    ensures Fuse(items + [item], opt, parent) == Act(Fuse(items, opt, parent), item, parent)
    ensures Unfused(items + [item]) == Unfused(items) + if item.Emit? then [item.i] else []
  {
    assert (items + [item])[..|items|] == items;
  }

  // ----- the emission discipline -----

  /** The operand conditions a merge relies on and does not test. */
  predicate Safe(p: Instr, i: Instr) {
    match i.op
    case JZ => i.a0 == p.a0 && 0 <= p.a1
    case GET => i.a1 != p.a0 && 0 <= i.a1 < 256
    case PREPCALL => i.a2 != p.a0
    case APPENDARRAY => i.a0 != p.a0 && i.a2 == AAT_STACK && (p.op == LOADBOOL ==> p.a1 == 0 || p.a1 == 1)
    case MOVE => 0 <= i.a1 < 256
    case LOAD => 0 <= i.a1
    case EQ | NE => i.a2 != p.a0 && i.a3 == 0
    case LOADNULLS => i.a1 == 1 && 0 <= p.a1
    case _ => true
  }

  /** Whether the merge leaves out the write to p's target. */
  predicate Drops(p: Instr, i: Instr) {
    i.op in {JZ, GET, PREPCALL, APPENDARRAY, EQ, NE} || Retargets(p, i)
  }

  /** The registers i certainly writes when it goes on. */
  function Rewrites(i: Instr): set<int> {
    match i.op
    case GET | EQ | NE | MOVE => {i.a0 as int}
    case PREPCALL => {i.a0 as int, i.a3 as int}
    case _ => {}
  }

  /** The registers in which the merged instruction may leave another value.  A modulo that
      fails writes nothing, so its merged form may leave the move's target behind as well. */
  function Dropped(p: Instr, i: Instr, sure: bool): set<int> {
    if !Drops(p, i) then {}
    else if !sure && p.op == MOD then if i.a0 == p.a0 then {} else {p.a0 as int, i.a0 as int}
    else {p.a0 as int} - Rewrites(i)
  }

  function Then<V, W>(env: Env<V, W>, r: Res<V, W>, i: Instr): Res<V, W> {
    match r
    case Stop(h) => Stop(h)
    case Go(_, s) => Exec(env, i, s)
  }

  ghost predicate MergeRight<V, W>(env: Env<V, W>, sure: bool, p: Instr, i: Instr, f: Instr, A: set<int>, B: set<int>, s: State<V, W>) {
    Follows(env, A - Dropped(p, i, sure), B, Then(env, Exec(env, p, s), i), Exec(env, f, s))
  }

  lemma MergedBranch<V, W>(env: Env<V, W>, sure: bool, p: Instr, i: Instr, A: set<int>, B: set<int>, s: State<V, W>)
    requires i.op == JZ && Merge(p, i, {}).Some? && Safe(p, i) && p.a0 !in B
    ensures MergeRight(env, sure, p, i, Merge(p, i, {}).value, A, B, s)
  {
    hide Exec;
    var f := Instr(JCMP, p.a1, i.a1, p.a2, p.a3);
    assert Merge(p, i, {}).value == f;
    CompareThenBranch(env, p, i, f, s);
  }

  /** What the comparison and the branch do, one after the other and as one. */
  lemma CompareThenBranch<V, W>(env: Env<V, W>, p: Instr, i: Instr, f: Instr, s: State<V, W>)
    requires p.op == CMP && i.op == JZ && i.a0 == p.a0 && f.op == JCMP && f.a0 == p.a1 && f.a2 == p.a2 && f.a3 == p.a3
    ensures var o := env.cmp(p.a3, s.w, s.regs(p.a2), s.regs(p.a1));
      if o.Ok? then
        && Then(env, Exec(env, p, s), i) == Go(env.isFalse(o.v), State(Upd(s.regs, p.a0, o.v), o.w))
        && Exec(env, f, s) == Go(env.isFalse(o.v), State(s.regs, o.w))
      else Then(env, Exec(env, p, s), i) == Exec(env, f, s) == Stop(Thrown(o.e, o.w, s.regs))
  {
  }

  lemma MergedLoad<V, W>(env: Env<V, W>, sure: bool, p: Instr, i: Instr, locals: set<int>, A: set<int>, B: set<int>, s: State<V, W>)
    requires i.op in {GET, PREPCALL} && Merge(p, i, locals).Some? && Safe(p, i) && p.a0 !in B
    ensures MergeRight(env, sure, p, i, Merge(p, i, locals).value, A, B, s)
  {
    hide MergeRight, Merge;
    if i.op == GET { MergedGet(env, sure, p, i, locals, A, B, s); } else { MergedPrepcall(env, sure, p, i, locals, A, B, s); }
  }

  lemma MergedGet<V, W>(env: Env<V, W>, sure: bool, p: Instr, i: Instr, locals: set<int>, A: set<int>, B: set<int>, s: State<V, W>)
    requires i.op == GET && Merge(p, i, locals).Some? && Safe(p, i) && p.a0 !in B
    ensures MergeRight(env, sure, p, i, Merge(p, i, locals).value, A, B, s)
  {
    var f := Instr(GETK, i.a0, p.a1, i.a1, p.a3);
    assert Merge(p, i, locals).value == f;
  }

  lemma MergedPrepcall<V, W>(env: Env<V, W>, sure: bool, p: Instr, i: Instr, locals: set<int>, A: set<int>, B: set<int>, s: State<V, W>)
    requires i.op == PREPCALL && Merge(p, i, locals).Some? && Safe(p, i) && p.a0 !in B
    ensures MergeRight(env, sure, p, i, Merge(p, i, locals).value, A, B, s)
  {
    var f := Instr(PREPCALLK, i.a0, p.a1, i.a2, i.a3);
    assert Merge(p, i, locals).value == f;
  }

  lemma MergedEquality<V, W>(env: Env<V, W>, sure: bool, p: Instr, i: Instr, locals: set<int>, A: set<int>, B: set<int>, s: State<V, W>)
    requires i.op in {EQ, NE} && Merge(p, i, locals).Some? && Safe(p, i)
    ensures MergeRight(env, sure, p, i, Merge(p, i, locals).value, A, B, s)
  {
  }

  lemma MergedAppend<V, W>(env: Env<V, W>, sure: bool, p: Instr, i: Instr, locals: set<int>, A: set<int>, B: set<int>, s: State<V, W>)
    requires i.op == APPENDARRAY && Merge(p, i, locals).Some? && Safe(p, i) && p.a0 !in B
    ensures MergeRight(env, sure, p, i, Merge(p, i, locals).value, A, B, s)
  {
  }

  lemma MergedMove<V, W>(env: Env<V, W>, sure: bool, p: Instr, i: Instr, locals: set<int>, A: set<int>, B: set<int>, s: State<V, W>)
    requires i.op == MOVE && Merge(p, i, locals).Some? && Safe(p, i) && (sure ==> env.watch)
    ensures MergeRight(env, sure, p, i, Merge(p, i, locals).value, A, B, s)
  {
    if Retargets(p, i) {
      MergedRetarget(env, sure, p, i, A, B, s);
    } else {
      assert Merge(p, i, locals).value == Instr(DMOVE, p.a0, p.a1, i.a0, i.a1);
    }
  }

  lemma MergedRetarget<V, W>(env: Env<V, W>, sure: bool, p: Instr, i: Instr, A: set<int>, B: set<int>, s: State<V, W>)
    requires Retargets(p, i) && (sure ==> env.watch)
    ensures MergeRight(env, sure, p, i, p.(a0 := i.a0), A, B, s)
  {
  }

  lemma MergedPair<V(!new), W(!new)>(env: Env<V, W>, sure: bool, p: Instr, i: Instr, locals: set<int>, A: set<int>,
        B: set<int>, s: State<V, W>)
    requires Lawful(env) && i.op in {LOAD, LOADNULLS} && Merge(p, i, locals).Some? && Safe(p, i)
    ensures MergeRight(env, sure, p, i, Merge(p, i, locals).value, A, B, s)
  {
  }

  /** Returning closes every captured variable of the frame anyway. */
  lemma MergedReturn<V(!new), W(!new)>(env: Env<V, W>, sure: bool, p: Instr, i: Instr, locals: set<int>, A: set<int>,
        B: set<int>, s: State<V, W>)
    requires Lawful(env) && i.op == RETURN && Merge(p, i, locals).Some?
    ensures MergeRight(env, sure, p, i, Merge(p, i, locals).value, A, B, s)
  {
  }

  /** Merging is right for every environment and state: p and then i, against the merged instruction. */
  lemma MergeFollows<V(!new), W(!new)>(env: Env<V, W>, sure: bool, p: Instr, i: Instr, locals: set<int>, A: set<int>,
        B: set<int>, s: State<V, W>)
    requires Lawful(env) && (sure ==> env.watch) && Merge(p, i, locals).Some? && Safe(p, i)
    requires Drops(p, i) ==> p.a0 !in B
    ensures MergeRight(env, sure, p, i, Merge(p, i, locals).value, A, B, s)
  {
    hide MergeRight;
    match i.op
    case JZ => MergedBranch(env, sure, p, i, A, B, s);
    case GET | PREPCALL => MergedLoad(env, sure, p, i, locals, A, B, s);
    case EQ | NE => MergedEquality(env, sure, p, i, locals, A, B, s);
    case APPENDARRAY => MergedAppend(env, sure, p, i, locals, A, B, s);
    case MOVE => MergedMove(env, sure, p, i, locals, A, B, s);
    case RETURN => MergedReturn(env, sure, p, i, locals, A, B, s);
    case _ => MergedPair(env, sure, p, i, locals, A, B, s);
  }

  // ----- composition -----

  lemma FollowsTrans<V, W>(env: Env<V, W>, A: set<int>, A': set<int>, B: set<int>, x: Res<V, W>, y: Res<V, W>, z: Res<V, W>)
    requires Follows(env, A, B, x, y) && Follows(env, A', B, y, z)
    ensures Follows(env, A * A', B, x, z)
  {
  }

  lemma FollowsSelf<V, W>(env: Env<V, W>, A: set<int>, B: set<int>, x: Res<V, W>)
    ensures Follows(env, A, B, x, x)
  {
  }

  lemma FollowsLess<V, W>(env: Env<V, W>, A: set<int>, A': set<int>, B: set<int>, B': set<int>, x: Res<V, W>, y: Res<V, W>)
    requires Follows(env, A, B, x, y) && A' <= A && B' <= B
    ensures Follows(env, A', B', x, y)
  {
  }

  lemma ThenFollows<V, W>(env: Env<V, W>, sure: bool, A: set<int>, B: set<int>, x: Res<V, W>, y: Res<V, W>, i: Instr)
    requires Follows(env, A, B, x, y) && Reads(i) <= A && B <= A && (sure ==> env.watch)
    ensures Follows(env, After(A, i, sure), B, Then(env, x, i), Then(env, y, i))
  {
    hide Exec, After, Reads;
    if x.Go? {
      ExecFollows(env, i, sure, A, x.st, y.st);
      FollowsLess(env, After(A, i, sure), After(A, i, sure), A, B, Then(env, x, i), Then(env, y, i));
    }
  }

  lemma RunSnoc<V, W>(env: Env<V, W>, code: seq<Instr>, i: Instr, s: State<V, W>)
    ensures RunLine(env, code + [i], s) == Then(env, RunLine(env, code, s), i)
  {
    assert (code + [i])[..|code|] == code;
  }

  lemma RunReplaced<V, W>(env: Env<V, W>, code: seq<Instr>, i: Instr, s: State<V, W>)
    requires code != []
    ensures RunLine(env, code, s) == Then(env, RunLine(env, code[..|code| - 1], s), Last(code))
    ensures RunLine(env, ReplaceLast(code, i), s) == Then(env, RunLine(env, code[..|code| - 1], s), i)
  {
    assert code == code[..|code| - 1] + [Last(code)];
    RunSnoc(env, code[..|code| - 1], Last(code), s);
    RunSnoc(env, code[..|code| - 1], i, s);
  }

  lemma MergeInLine<V(!new), W(!new)>(env: Env<V, W>, sure: bool, code: seq<Instr>, i: Instr, locals: set<int>,
        A: set<int>, B: set<int>, s: State<V, W>)
    requires Lawful(env) && (sure ==> env.watch) && code != [] && Merge(Last(code), i, locals).Some? && Safe(Last(code), i)
    requires Drops(Last(code), i) ==> Last(code).a0 !in B
    ensures Follows(env, A - Dropped(Last(code), i, sure), B, Then(env, RunLine(env, code, s), i),
                    RunLine(env, ReplaceLast(code, Merge(Last(code), i, locals).value), s))
  {
    hide Exec, Merge, Safe, Drops, Dropped;
    var p, f := Last(code), Merge(Last(code), i, locals).value;
    RunReplaced(env, code, f, s);
    match RunLine(env, code[..|code| - 1], s)
    case Stop(h) => FollowsSelf(env, A - Dropped(p, i, sure), B, Stop(h));
    case Go(_, s') => MergeFollows(env, sure, p, i, locals, A, B, s');
  }

  lemma NotTailCalled<V, W>(env: Env<V, W>, p: Instr, s: State<V, W>)
    requires p.op == CALL && !env.canTail(s.regs(p.a1))
    ensures Exec(env, p.(op := TAILCALL), s) == Exec(env, p, s)
  {
  }

  lemma CallThenReturn<V, W>(env: Env<V, W>, p: Instr, i: Instr, s: State<V, W>)
    requires p.op == CALL && i.op == RETURN && i.a0 != NONE && p.a0 != NONE && i.a1 == Signed(p.a0) && env.scripted(s.regs(p.a1))
    ensures Then(env, Exec(env, p, s), i) ==
      match env.call(s.w, s.regs(p.a1), Args(s.regs, p.a2, p.a3))
      case Ok(w', v) => Stop(Returned(v, env.leave(w')))
      case Err(w', e) => Stop(Thrown(e, w', s.regs))
  {
  }

  /** Turning a call whose result is returned at once into a tail call. */
  lemma TailCallFollows<V(!new), W(!new)>(env: Env<V, W>, p: Instr, i: Instr, A: set<int>, B: set<int>, s: State<V, W>)
    requires Lawful(env) && p.op == CALL && i.op == RETURN && i.a0 != NONE && p.a0 != NONE && i.a1 == Signed(p.a0)
    ensures Follows(env, A, B, Then(env, Exec(env, p, s), i), Then(env, Exec(env, p.(op := TAILCALL), s), i))
  {
    var f, args := s.regs(p.a1), Args(s.regs, p.a2, p.a3);
    if !env.canTail(f) {
      hide Exec;
      NotTailCalled(env, p, s);
      FollowsSelf(env, A, B, Then(env, Exec(env, p, s), i));
    } else {
      CallThenReturn(env, p, i, s);
      assert env.call(env.leave(s.w), f, args) ==
        match env.call(s.w, f, args)
        case Ok(w', v) => Ok(env.leave(w'), v)
        case Err(w', e) => Err(env.leave(w'), e);
    }
  }

  lemma TailCallInLine<V(!new), W(!new)>(env: Env<V, W>, code: seq<Instr>, i: Instr, A: set<int>, B: set<int>, s: State<V, W>)
    requires Lawful(env) && code != [] && Last(code).op == CALL && i.op == RETURN && i.a0 != NONE
    requires Last(code).a0 != NONE && i.a1 == Signed(Last(code).a0)
    ensures Follows(env, A, B, Then(env, RunLine(env, code, s), i),
                    Then(env, RunLine(env, ReplaceLast(code, Last(code).(op := TAILCALL)), s), i))
  {
    hide Exec;
    RunReplaced(env, code, Last(code).(op := TAILCALL), s);
    match RunLine(env, code[..|code| - 1], s)
    case Stop(h) => FollowsSelf(env, A, B, Stop(h));
    case Go(_, s') => TailCallFollows(env, Last(code), i, A, B, s');
  }

  lemma SelfTargetSame<V, W>(env: Env<V, W>, i: Instr, A: set<int>, B: set<int>, x: Res<V, W>)
    ensures Follows(env, A, B, Then(env, x, i), Then(env, x, DropSelfTarget(i)))
  {
    if DropSelfTarget(i) == i { FollowsSelf(env, A, B, Then(env, x, i)); }
  }

  /** The registers an instruction's result may go to. */
  function Targets(p: Instr): set<int> { if p.op == CALL then {Signed(p.a0), p.a0 as int} else {p.a0 as int} }

  lemma DiscardInLine<V, W>(env: Env<V, W>, code: seq<Instr>, A: set<int>, B: set<int>, s: State<V, W>)
    requires code != [] && Last(code).op in {SET, NEWSLOT, SETOUTER, CALL}
    ensures Follows(env, A - Targets(Last(code)), B, RunLine(env, code, s), RunLine(env, ReplaceLast(code, Last(code).(a0 := NONE)), s))
  {
    RunReplaced(env, code, Last(code).(a0 := NONE), s);
    match RunLine(env, code[..|code| - 1], s)
    case Stop(h) => FollowsSelf(env, A - Targets(Last(code)), B, Stop(h));
    case Go(_, s') =>
  }

  // ----- whole streams -----

  /** What the emission discipline is asked for: the registers never to be given up, and whether
      it may count on no modulo failing. */
  datatype Pact = Pact(keep: set<int>, sure: bool)

  /** The environment suits the discipline: it is lawful, and its runs are watched when the discipline
      counts on no modulo failing. */
  ghost predicate Suits<V(!new), W(!new)>(env: Env<V, W>, pact: Pact) {
    Lawful(env) && (pact.sure ==> env.watch)
  }

  /** The registers in which the optimized run agrees with the plain one after one act, or None
      when the act breaks the discipline: an instruction may only read registers that agree,
      a merge must be safe, and the registers to be kept are never given up. */
  function FlowItem(b: Buf, item: Item, parent: bool, A: set<int>, pact: Pact): Option<set<int>> {
    match item
    case Snooze => Some(A)
    case Discard(target) =>
      if !Discards(b, target) then Some(A)
      else if Targets(Last(b.code)) * pact.keep != {} then None
      else Some(A - Targets(Last(b.code)))
    case Emit(i, locals, retStart) =>
      if !(Reads(i) <= A && pact.keep <= A) then None
      else if !b.opt || b.code == [] then Some(After(A, i, pact.sure))
      else if TailCalls(b.code, i, parent, retStart) then
        if Last(b.code).a0 != NONE && i.a1 == Signed(Last(b.code).a0) then Some(After(A, i, pact.sure)) else None
      else if Merge(Last(b.code), i, locals).None? then Some(After(A, i, pact.sure))
      else if Safe(Last(b.code), i) && (Drops(Last(b.code), i) ==> Last(b.code).a0 !in pact.keep)
      then Some(After(A, i, pact.sure) - Dropped(Last(b.code), i, pact.sure))
      else None
  }

  function FlowItems(items: seq<Item>, opt: bool, parent: bool, A: set<int>, pact: Pact): Option<set<int>> {
    if items == [] then Some(A)
    else
      var before := items[..|items| - 1];
      match FlowItems(before, opt, parent, A, pact)
      case None => None
      case Some(A') => FlowItem(Fuse(before, opt, parent), items[|items| - 1], parent, A', pact)
  }

  lemma EmitFollows<V(!new), W(!new)>(env: Env<V, W>, b: Buf, i: Instr, locals: set<int>, retStart: int, parent: bool,
        A: set<int>, pact: Pact, x: Res<V, W>, t: State<V, W>)
    requires Suits(env, pact) && FlowItem(b, Emit(i, locals, retStart), parent, A, pact).Some?
    requires Follows(env, A, pact.keep, x, RunLine(env, b.code, t))
    ensures Follows(env, FlowItem(b, Emit(i, locals, retStart), parent, A, pact).value, pact.keep,
                    Then(env, x, i), RunLine(env, AddInstruction(b, i, locals, parent, retStart).code, t))
  {
    hide Exec, Merge, Safe, Drops, Dropped, After, Reads, DropSelfTarget, Follows;
    var y := RunLine(env, b.code, t);
    var A' := After(A, i, pact.sure);
    ThenFollows(env, pact.sure, A, pact.keep, x, y, i);
    RunSnoc(env, b.code, i, t);
    RunSnoc(env, b.code, DropSelfTarget(i), t);
    assert [] + [DropSelfTarget(i)] == [DropSelfTarget(i)];
    if !b.opt {
    } else if b.code == [] || (!TailCalls(b.code, i, parent, retStart) && Merge(Last(b.code), i, locals).None?) {
      SelfTargetSame(env, i, A', pact.keep, y);
      FollowsTrans(env, A', A', pact.keep, Then(env, x, i), Then(env, y, i), Then(env, y, DropSelfTarget(i)));
      assert A' * A' == A';
    } else if TailCalls(b.code, i, parent, retStart) {
      var c := ReplaceLast(b.code, Last(b.code).(op := TAILCALL));
      TailCallInLine(env, b.code, i, A', pact.keep, t);
      RunSnoc(env, c, i, t);
      FollowsTrans(env, A', A', pact.keep, Then(env, x, i), Then(env, y, i), Then(env, RunLine(env, c, t), i));
      assert A' * A' == A';
    } else {
      var D := Dropped(Last(b.code), i, pact.sure);
      var c := ReplaceLast(b.code, Merge(Last(b.code), i, locals).value);
      MergeInLine(env, pact.sure, b.code, i, locals, A', pact.keep, t);
      FollowsTrans(env, A', A' - D, pact.keep, Then(env, x, i), Then(env, y, i), RunLine(env, c, t));
      assert A' * (A' - D) == A' - D;
    }
  }

  /** The optimizer preserves the meaning of every disciplined stream: from states that agree in
      A, the optimized code has the same control outcome and the same world as the stream run
      instruction by instruction, and the same registers except the temporaries given up. */
  lemma {:induction false} FuseFollows<V(!new), W(!new)>(env: Env<V, W>, items: seq<Item>, opt: bool, parent: bool,
        A: set<int>, pact: Pact, s: State<V, W>, t: State<V, W>)
    requires Suits(env, pact) && Agree(A, s, t) && FlowItems(items, opt, parent, A, pact).Some?
    ensures Follows(env, FlowItems(items, opt, parent, A, pact).value, pact.keep,
                    RunLine(env, Unfused(items), s), RunLine(env, Fuse(items, opt, parent).code, t))
    decreases |items|
  {
    if items != [] {
      hide Exec, Merge, Safe, Drops, Dropped, After, Reads, AddInstruction;
      var before, last := items[..|items| - 1], items[|items| - 1];
      var b, A' := Fuse(before, opt, parent), FlowItems(before, opt, parent, A, pact).value;
      FuseFollows(env, before, opt, parent, A, pact, s, t);
      var x, y := RunLine(env, Unfused(before), s), RunLine(env, b.code, t);
      match last
      case Snooze => assert Unfused(items) == Unfused(before);
      case Discard(target) =>
        assert Unfused(items) == Unfused(before);
        if Discards(b, target) {
          var T := Targets(Last(b.code));
          DiscardInLine(env, b.code, A', pact.keep, t);
          FollowsTrans(env, A', A' - T, pact.keep, x, y, RunLine(env, ReplaceLast(b.code, Last(b.code).(a0 := NONE)), t));
          assert A' * (A' - T) == A' - T;
        }
      case Emit(i, locals, retStart) =>
        RunSnoc(env, Unfused(before), i, s);
        EmitFollows(env, b, i, locals, retStart, parent, A', pact, x, t);
    }
  }
}
