/** The instructions the peephole optimizer knows, and what one step of the
    virtual machine does with them.  Table access, arithmetic, comparison and
    calls are arbitrary user-visible effects, so they are functions of an
    environment over which every theorem quantifies. */
module Bytecode {

  type Byte = x: int | 0 <= x < 256

  /** "No target" in a register operand; also the largest frame size. */
  const NONE: Byte := 0xFF

  datatype Op =
    | LOAD | LOADINT | LOADFLOAT | LOADBOOL | LOADNULLS | DLOAD
    | MOVE | DMOVE | GET | GETK | PREPCALL | PREPCALLK | SET | NEWSLOT
    | GETOUTER | SETOUTER | APPENDARRAY
    | ADD | SUB | MUL | DIV | MOD | BITW | EQ | NE | CMP
    | JMP | JZ | JCMP | AND | OR
    | CALL | TAILCALL | RETURN | CLOSE

  datatype Instr = Instr(op: Op, a0: Byte, a1: int, a2: Byte, a3: Byte)

  // The operand kinds of APPENDARRAY.
  const AAT_STACK: Byte := 0
  const AAT_LITERAL: Byte := 1
  const AAT_INT: Byte := 2
  const AAT_FLOAT: Byte := 3
  const AAT_BOOL: Byte := 4

  /** The result of an operation that may raise an error. */
  datatype Out<+V, +W> = Ok(w: W, v: V) | Err(w: W, e: V)

  /** Registers are addressed relative to the frame base. */
  type Regs<!V> = int -> V

  datatype State<!V, !W> = State(regs: Regs<V>, w: W)

  /** How a frame ends.  A tail call gives its registers up before the callee runs; only a
      watched run stops at a modulo that failed. */
  datatype Halt<!V, !W> =
    | Returned(v: V, w: W)
    | Thrown(e: V, w: W, regs: Regs<V>)
    | ThrownByTailCall(e: V, w: W)
    | Slipped(w: W)

  /** One instruction either goes on, possibly taking its jump, or ends the frame. */
  datatype Res<!V, !W> = Go(jump: bool, st: State<V, W>) | Stop(h: Halt<V, W>)

  /** What instructions do to values and to the world.  Reading and writing a slot are told whether the
      object is `this`, register 0, for which a missing name is looked up among the globals too. */
  datatype Env<!V, !W> = Env(
    nil: V,
    lit: int -> V,
    ofInt: int -> V,
    ofFloat: int -> V,
    ofBool: int -> V,
    isFalse: V -> bool,
    eq: (V, V) -> bool,
    getSlot: (W, V, V, bool) -> Out<V, W>,
    setSlot: (W, V, V, V, bool) -> Out<V, W>,
    newSlot: (W, V, V, V) -> Out<V, W>,
    append: (W, V, V) -> Out<V, W>,
    arith: (Op, int, W, V, V) -> Out<V, W>,
    cmp: (int, W, V, V) -> Out<V, W>,
    getouter: (W, int) -> V,
    setouter: (W, int, V) -> W,
    call: (W, V, seq<V>) -> Out<V, W>,
    scratch: (W, int) -> V,
    canTail: V -> bool,
    scripted: V -> bool,
    close: (W, int) -> W,
    leave: W -> W,
    watch: bool)

  /** Closing some captured variables and then the whole frame is the same as closing the
      frame, and a callee that can be tail-called is a script function and does not tell whether the
      frame below it has been left before or after its run. */
  ghost predicate Lawful<V(!new), W(!new)>(env: Env<V, W>) {
    && (forall w, n :: env.leave(env.close(w, n)) == env.leave(w))
    && (forall f :: env.canTail(f) ==> env.scripted(f))
    && (forall w, f, args :: env.canTail(f) ==>
         env.call(env.leave(w), f, args) ==
           match env.call(w, f, args)
           case Ok(w', v) => Ok(env.leave(w'), v)
           case Err(w', e) => Err(env.leave(w'), e))
  }

  function Upd<V>(regs: Regs<V>, r: int, v: V): Regs<V> {
    q => if q == r then v else regs(q)
  }

  /** Writes a result unless the operand says there is no target. */
  function Put<V>(regs: Regs<V>, target: int, v: V): Regs<V> {
    if target == NONE then regs else Upd(regs, target, v)
  }

  /** A byte read as a signed one; -1 is no target. */
  function Signed(b: Byte): int { if b < 128 then b else b - 256 }

  /** The register a call's result goes to: for a script function the target is read as a signed byte. */
  function ResultReg<V, W>(env: Env<V, W>, f: V, target: Byte): int {
    if env.scripted(f) then Signed(target) else target
  }

  function Args<V>(regs: Regs<V>, base: int, n: nat): seq<V> {
    seq(n, j => regs(base + j))
  }

  function Store<V, W>(o: Out<V, W>, regs: Regs<V>, target: int): Res<V, W> {
    match o
    case Ok(w, v) => Go(false, State(Upd(regs, target, v), w))
    case Err(w, e) => Stop(Thrown(e, w, regs))
  }

  /** The effect of a store into a slot: the value written is also the value of the expression. */
  function Assigned<V, W>(o: Out<V, W>, regs: Regs<V>, target: int, v: V): Res<V, W> {
    match o
    case Ok(w, _) => Go(false, State(Put(regs, target, v), w))
    case Err(w, e) => Stop(Thrown(e, w, regs))
  }

  /** A modulo that fails raises its error and is not guarded: the machine goes on with the target
      unwritten.  A watched run stops there instead. */
  function Modulo<V, W>(o: Out<V, W>, watch: bool, regs: Regs<V>, target: int): Res<V, W> {
    match o
    case Ok(w, v) => Go(false, State(Upd(regs, target, v), w))
    case Err(w, _) => if watch then Stop(Slipped(w)) else Go(false, State(regs, w))
  }

  /** A method call is prepared: the object becomes `this` and the closure goes to the target. */
  function Prepared<V, W>(o: Out<V, W>, i: Instr, regs: Regs<V>): Res<V, W> {
    match o
    case Ok(w, v) => Go(false, State(Upd(Upd(regs, i.a3, regs(i.a2)), i.a0, v), w))
    case Err(w, e) => Stop(Thrown(e, w, regs))
  }

  function CallResult<V, W>(env: Env<V, W>, i: Instr, s: State<V, W>): Res<V, W> {
    match env.call(s.w, s.regs(i.a1), Args(s.regs, i.a2, i.a3))
    case Ok(w, v) =>
      var kept: Regs<V> := q => if q < i.a2 then s.regs(q) else env.scratch(w, q);
      Go(false, State(if i.a0 == NONE then kept else Upd(kept, ResultReg(env, s.regs(i.a1), i.a0), v), w))
    case Err(w, e) => Stop(Thrown(e, w, s.regs))
  }

  function Operand<V, W>(env: Env<V, W>, i: Instr, regs: Regs<V>): V {
    if i.a3 != 0 then env.lit(i.a1) else regs(i.a1)
  }

  function Appended<V, W>(env: Env<V, W>, i: Instr, regs: Regs<V>): V {
    if i.a2 == AAT_LITERAL then env.lit(i.a1)
    else if i.a2 == AAT_INT then env.ofInt(i.a1)
    else if i.a2 == AAT_FLOAT then env.ofFloat(i.a1)
    else if i.a2 == AAT_BOOL then env.ofBool(i.a1)
    else regs(i.a1)
  }

  /** One instruction; a jump offset is not looked at here. */
  function Exec<V, W>(env: Env<V, W>, i: Instr, s: State<V, W>): Res<V, W> {
    var regs, w := s.regs, s.w;
    match i.op
    case LOAD => Go(false, State(Upd(regs, i.a0, env.lit(i.a1)), w))
    case LOADINT => Go(false, State(Upd(regs, i.a0, env.ofInt(i.a1)), w))
    case LOADFLOAT => Go(false, State(Upd(regs, i.a0, env.ofFloat(i.a1)), w))
    case LOADBOOL => Go(false, State(Upd(regs, i.a0, env.ofBool(if i.a1 != 0 then 1 else 0)), w))
    case LOADNULLS => Go(false, State(q => if i.a0 <= q < i.a0 + i.a1 then env.nil else regs(q), w))
    case DLOAD => Go(false, State(Upd(Upd(regs, i.a0, env.lit(i.a1)), i.a2, env.lit(i.a3)), w))
    case MOVE => Go(false, State(Upd(regs, i.a0, regs(i.a1)), w))
    case DMOVE =>
      var once := Upd(regs, i.a0, regs(i.a1));
      Go(false, State(Upd(once, i.a2, once(i.a3)), w))
    case GET => Store(env.getSlot(w, regs(i.a1), regs(i.a2), i.a1 == 0), regs, i.a0)
    case GETK => Store(env.getSlot(w, regs(i.a2), env.lit(i.a1), i.a2 == 0), regs, i.a0)
    case PREPCALL => Prepared(env.getSlot(w, regs(i.a2), regs(i.a1), i.a2 == 0), i, regs)
    case PREPCALLK => Prepared(env.getSlot(w, regs(i.a2), env.lit(i.a1), i.a2 == 0), i, regs)
    case SET => Assigned(env.setSlot(w, regs(i.a1), regs(i.a2), regs(i.a3), i.a1 == 0), regs, i.a0, regs(i.a3))
    case NEWSLOT => Assigned(env.newSlot(w, regs(i.a1), regs(i.a2), regs(i.a3)), regs, i.a0, regs(i.a3))
    case GETOUTER => Go(false, State(Upd(regs, i.a0, env.getouter(w, i.a1)), w))
    case SETOUTER => Go(false, State(Put(regs, i.a0, regs(i.a2)), env.setouter(w, i.a1, regs(i.a2))))
    case APPENDARRAY => Assigned(env.append(w, regs(i.a0), Appended(env, i, regs)), regs, NONE, env.nil)
    case ADD | SUB | MUL | DIV => Store(env.arith(i.op, 0, w, regs(i.a2), regs(i.a1)), regs, i.a0)
    case MOD => Modulo(env.arith(i.op, 0, w, regs(i.a2), regs(i.a1)), env.watch, regs, i.a0)
    case BITW => Store(env.arith(i.op, i.a3, w, regs(i.a2), regs(i.a1)), regs, i.a0)
    case EQ => Go(false, State(Upd(regs, i.a0, env.ofBool(if env.eq(regs(i.a2), Operand(env, i, regs)) then 1 else 0)), w))
    case NE => Go(false, State(Upd(regs, i.a0, env.ofBool(if env.eq(regs(i.a2), Operand(env, i, regs)) then 0 else 1)), w))
    case CMP => Store(env.cmp(i.a3, w, regs(i.a2), regs(i.a1)), regs, i.a0)
    case JMP => Go(true, s)
    case JZ => Go(env.isFalse(regs(i.a0)), s)
    case JCMP =>
      (match env.cmp(i.a3, w, regs(i.a2), regs(i.a0))
       case Ok(w', v) => Go(env.isFalse(v), State(regs, w'))
       case Err(w', e) => Stop(Thrown(e, w', regs)))
    case AND => if env.isFalse(regs(i.a2)) then Go(true, State(Upd(regs, i.a0, regs(i.a2)), w)) else Go(false, s)
    case OR => if env.isFalse(regs(i.a2)) then Go(false, s) else Go(true, State(Upd(regs, i.a0, regs(i.a2)), w))
    case CALL => CallResult(env, i, s)
    case TAILCALL =>
      if env.canTail(regs(i.a1)) then
        match env.call(env.leave(w), regs(i.a1), Args(regs, i.a2, i.a3))
        case Ok(w', v) => Stop(Returned(v, w'))
        case Err(w', e) => Stop(ThrownByTailCall(e, w'))
      else CallResult(env, i, s)
    case RETURN => Stop(Returned(if i.a0 != NONE then regs(i.a1) else env.nil, env.leave(w)))
    case CLOSE => Go(false, State(regs, env.close(w, i.a1)))
  }

  /** Instructions in order, from the state the ones before leave. */
  function RunLine<V, W>(env: Env<V, W>, code: seq<Instr>, s: State<V, W>): Res<V, W> {
    if code == [] then Go(false, s)
    else
      match RunLine(env, code[..|code| - 1], s)
      case Stop(h) => Stop(h)
      case Go(_, s') => Exec(env, code[|code| - 1], s')
  }

  // ----- reads and writes -----

  predicate IsJump(op: Op) { op in {JMP, JZ, JCMP, AND, OR} }

  function Range(lo: int, hi: int): (r: set<int>)
    ensures forall q :: q in r <==> lo <= q < hi
    decreases hi - lo
  {
    if lo >= hi then {} else {lo} + Range(lo + 1, hi)
  }

  /** The registers an instruction looks at. */
  function Reads(i: Instr): set<int> {
    match i.op
    case LOAD | LOADINT | LOADFLOAT | LOADBOOL | LOADNULLS | DLOAD | GETOUTER | JMP | CLOSE => {}
    case MOVE => {i.a1}
    case DMOVE => {i.a1, i.a3}
    case GET | PREPCALL | ADD | SUB | MUL | DIV | MOD | BITW | CMP => {i.a1, i.a2}
    case GETK | PREPCALLK | SETOUTER | AND | OR => {i.a2}
    case SET | NEWSLOT => {i.a1, i.a2, i.a3}
    case APPENDARRAY => if AAT_LITERAL <= i.a2 <= AAT_BOOL then {i.a0} else {i.a0, i.a1}
    case EQ | NE => if i.a3 != 0 then {i.a2} else {i.a1, i.a2}
    case JZ => {i.a0}
    case JCMP => {i.a0, i.a2}
    case CALL | TAILCALL => {i.a1} + Range(i.a2, i.a2 + i.a3)
    case RETURN => if i.a0 != NONE then {i.a1} else {}
  }

  /** The registers in which two runs agree after an instruction, when they agree in A before it.
      A modulo is certain to write its target only when no modulo fails, or the run is watched; which
      register a call writes depends on the callee from 128 on. */
  function After(A: set<int>, i: Instr, sure: bool): set<int> {
    match i.op
    case LOAD | LOADINT | LOADFLOAT | LOADBOOL | MOVE | GET | GETK | GETOUTER
      | ADD | SUB | MUL | DIV | BITW | EQ | NE | CMP => A + {i.a0 as int}
    case MOD => if sure then A + {i.a0 as int} else A
    case LOADNULLS => A + Range(i.a0, i.a0 + i.a1)
    case DLOAD | DMOVE => A + {i.a0 as int, i.a2 as int}
    case PREPCALL | PREPCALLK => A + {i.a0 as int, i.a3 as int}
    case SET | NEWSLOT | SETOUTER => if i.a0 == NONE then A else A + {i.a0 as int}
    case CALL | TAILCALL => if i.a0 >= 128 then A else A + {i.a0 as int}
    case APPENDARRAY | JMP | JZ | JCMP | AND | OR | RETURN | CLOSE => A
  }

  // ----- agreement of two runs -----

  ghost predicate Agree<V, W>(A: set<int>, s: State<V, W>, t: State<V, W>) {
    s.w == t.w && forall q :: q in A ==> s.regs(q) == t.regs(q)
  }

  ghost predicate HaltAgree<V, W>(env: Env<V, W>, A: set<int>, h: Halt<V, W>, k: Halt<V, W>) {
    match (h, k)
    case (Returned(v, w), Returned(v', w')) => v == v' && w == w'
    case (Thrown(e, w, r), Thrown(e', w', r')) => e == e' && w == w' && forall q :: q in A ==> r(q) == r'(q)
    case (Thrown(e, w, _), ThrownByTailCall(e', w')) => e == e' && w' == env.leave(w)
    case (ThrownByTailCall(e, w), ThrownByTailCall(e', w')) => e == e' && w == w'
    case (Slipped(w), Slipped(w')) => w == w'
    case _ => false
  }

  /** The second run follows the first: same control outcome, same world, and the same
      registers in A (in B when the frame ends with an error). */
  ghost predicate Follows<V, W>(env: Env<V, W>, A: set<int>, B: set<int>, x: Res<V, W>, y: Res<V, W>) {
    match (x, y)
    case (Go(j, s), Go(j', s')) => j == j' && Agree(A, s, s')
    case (Stop(h), Stop(h')) => HaltAgree(env, B, h, h')
    case _ => false
  }

  lemma CallFollows<V, W>(env: Env<V, W>, i: Instr, A: set<int>, s: State<V, W>, t: State<V, W>)
    requires i.op in {CALL, TAILCALL} && Agree(A, s, t) && Reads(i) <= A
    ensures Follows(env, After(A, i, false), A, Exec(env, i, s), Exec(env, i, t))
  {
    assert Args(s.regs, i.a2, i.a3) == Args(t.regs, i.a2, i.a3);
  }

  lemma SlotFollows<V, W>(env: Env<V, W>, i: Instr, A: set<int>, s: State<V, W>, t: State<V, W>)
    requires i.op in {GET, GETK, PREPCALL, PREPCALLK, SET, NEWSLOT, SETOUTER, GETOUTER, APPENDARRAY}
    requires Agree(A, s, t) && Reads(i) <= A
    ensures Follows(env, After(A, i, false), A, Exec(env, i, s), Exec(env, i, t))
  {
  }

  /** Two runs of an instruction from states that agree on what it reads. */
  lemma ExecFollows<V, W>(env: Env<V, W>, i: Instr, sure: bool, A: set<int>, s: State<V, W>, t: State<V, W>)
    requires Agree(A, s, t) && Reads(i) <= A && (sure ==> env.watch)
    ensures Follows(env, After(A, i, sure), A, Exec(env, i, s), Exec(env, i, t))
  {
    match i.op
    case CALL | TAILCALL => CallFollows(env, i, A, s, t);
    case GET | GETK | PREPCALL | PREPCALLK | SET | NEWSLOT | SETOUTER | GETOUTER | APPENDARRAY => SlotFollows(env, i, A, s, t);
    case _ =>
  }
}
