/** The operators && and ||, nested to any depth: the jumping code leaves the value they mean. */
module Logical {
  import opened Bytecode
  import opened Peephole
  import opened Codegen
  import opened Simulation
  import opened Syntax
  import opened Meaning
  import opened Expressions
  import opened Values

  // ----- code -----

  function CondReg(c: Cond, top: nat): nat { if c.Leaf? then Reg(c.e, top) else top }

  /** The register `top` takes the value in register r, where they differ. */
  function Copy(top: nat, r: nat, k: nat): seq<Item> {
    if r == top then [] else Issue(Make(MOVE, top, r, 0, 0), k)
  }

  /** The code for a condition behind the items `before`. */
  function CondCode(c: Cond, k: nat, top: nat, before: seq<Item>): Code
    decreases c, 0
  {
    match c
    case Leaf(e) => Line(before + Acts(e, k, top))
    case And(l, r) => Seq(CondCode(l, k, top, before), Logic(true, Cast(top), Cast(CondReg(l, top)), Second(l, r, k, top)))
    case Or(l, r) => Seq(CondCode(l, k, top, before), Logic(false, Cast(top), Cast(CondReg(l, top)), Second(l, r, k, top)))
  }

  function Second(l: Cond, r: Cond, k: nat, top: nat): Code
    decreases r, 1
  {
    Seq(CondCode(r, k, top + 1, Copy(top, CondReg(l, top), k)), Line(Copy(top, CondReg(r, top + 1), k)))
  }

  /** The registers suffice. */
  predicate CondFits(c: Cond, k: nat, top: nat, sure: bool) {
    match c
    case Leaf(e) => Fitting(e, k, top, sure)
    case And(l, r) => top < 255 && CondFits(l, k, top, sure) && CondFits(r, k, top + 1, sure)
    case Or(l, r) => top < 255 && CondFits(l, k, top, sure) && CondFits(r, k, top + 1, sure)
  }

  // ----- the code leaves the value -----

  ghost predicate Starts<V, W>(env: Env<V, W>, c: Cond, k: nat, top: nat, sure: bool, m: State<V, W>, s: State<V, W>) {
    CondFits(c, k, top, sure) && 1 <= k <= top <= 255 && (sure ==> env.watch) && Agree(Range(0, k), m, s)
  }

  ghost predicate Gives<V, W>(env: Env<V, W>, a: Ans<V, W>, o: Outcome<V, W>, s: State<V, W>, c: Cond, k: nat, top: nat) {
    match a
    case Got(p, m) =>
      && o.Fell? && Agree(Range(0, k), m, o.s) && Kept(s, o.s, k, top)
      && (if c.Leaf? then Sits(p, c.e, top, o.s) else p == Held(o.s.regs(top)))
    case Fails(h) => o.Ended? && HaltAgree(env, Range(0, k), h, o.h)
  }

  /** From any state that the items before lead to, the code of a condition does what the condition means. */
  lemma {:induction false} CondRun<V, W>(env: Env<V, W>, c: Cond, k: nat, top: nat, sure: bool, before: seq<Item>,
        m: State<V, W>, s: State<V, W>, s0: State<V, W>, fuel: nat)
    requires Plain(env, before, s) == Go(false, s0) && Starts(env, c, k, top, sure, m, s0)
    ensures Gives(env, Value(env, c, m), Ev(env, CondCode(c, k, top, before), s, fuel), s0, c, k, top)
    decreases c, 2
  {
    match c
    case Leaf(e) => LeafRun(env, c, k, top, sure, before, m, s, s0, fuel);
    case And(l, r) => JunctRun(env, c, l, r, true, k, top, sure, before, m, s, s0, fuel);
    case Or(l, r) => JunctRun(env, c, l, r, false, k, top, sure, before, m, s, s0, fuel);
  }

  lemma LeafRun<V, W>(env: Env<V, W>, c: Cond, k: nat, top: nat, sure: bool, before: seq<Item>,
        m: State<V, W>, s: State<V, W>, s0: State<V, W>, fuel: nat)
    requires c.Leaf? && Plain(env, before, s) == Go(false, s0) && Starts(env, c, k, top, sure, m, s0)
    ensures Gives(env, Value(env, c, m), Ev(env, CondCode(c, k, top, before), s, fuel), s0, c, k, top)
  {
    hide Eval, Plain, Acts, Ev, Fitting, Range, HaltAgree, Agree, Kept, Sits;
    EvalRun(env, c.e, k, top, sure, m, s0);
    PlainJoin(env, before, Acts(c.e, k, top), s);
    LineIs(env, before + Acts(c.e, k, top), s, fuel);
  }

  /** What a logical operator does behind its first operand. */
  lemma EvJunct<V, W>(env: Env<V, W>, a: Code, isAnd: bool, trg: Byte, f: Byte, rest: Code, s: State<V, W>, fuel: nat)
    ensures var o := Ev(env, a, s, fuel);
      Ev(env, Seq(a, Logic(isAnd, trg, f, rest)), s, fuel) ==
        if !o.Fell? then o
        else if env.isFalse(o.s.regs(f)) == isAnd then Fell(State(Upd(o.s.regs, trg, o.s.regs(f)), o.s.w))
        else Ev(env, rest, o.s, fuel)
  {
  }

  lemma {:induction false} JunctRun<V, W>(env: Env<V, W>, c: Cond, l: Cond, r: Cond, isAnd: bool, k: nat, top: nat, sure: bool,
        before: seq<Item>, m: State<V, W>, s: State<V, W>, s0: State<V, W>, fuel: nat)
    requires c == if isAnd then And(l, r) else Or(l, r)
    requires Plain(env, before, s) == Go(false, s0) && Starts(env, c, k, top, sure, m, s0)
    ensures Gives(env, Value(env, c, m), Ev(env, CondCode(c, k, top, before), s, fuel), s0, c, k, top)
    decreases c, 1
  {
    hide Plain, Acts, Ev, Fitting, Range, HaltAgree, Sits, Eval;
    CondRun(env, l, k, top, sure, before, m, s, s0, fuel);
    var a, first := Value(env, l, m), CondCode(l, k, top, before);
    EvJunct(env, first, isAnd, Cast(top), Cast(CondReg(l, top)), Second(l, r, k, top), s, fuel);
    if a.Got? {
      var t := Ev(env, first, s, fuel).s;
      PlaceIs(env, a.p, l, k, top, sure, a.s, t);
      if env.isFalse(Val(a.p, a.s)) != isAnd { SecondRun(env, c, l, r, k, top, sure, a.s, s0, t, fuel); }
    }
  }

  lemma PlaceIs<V, W>(env: Env<V, W>, p: Place<V>, c: Cond, k: nat, top: nat, sure: bool, m: State<V, W>, t: State<V, W>)
    requires CondFits(c, k, top, sure) && 1 <= k <= top <= 255 && Agree(Range(0, k), m, t)
    requires if c.Leaf? then Sits(p, c.e, top, t) else p == Held(t.regs(top))
    ensures t.regs(CondReg(c, top)) == Val(p, m) && CondReg(c, top) <= 255 && Cast(CondReg(c, top)) == CondReg(c, top) && Cast(top) == top
  {
    hide Fitting, Range, Sits;
    if c.Leaf? { PlaceHolds(p, c.e, k, top, sure, m, t); }
  }

  lemma CopyIs<V, W>(env: Env<V, W>, top: nat, r: nat, k: nat, t: State<V, W>)
    requires top <= 255
    ensures Plain(env, Copy(top, r, k), t) == Go(false, if r == top then t else State(Upd(t.regs, top, t.regs(r)), t.w))
  {
    hide Plain, Issue, Make, Exec;
    if r == top {
      PlainNone(env, t);
    } else {
      var i := Make(MOVE, top, r, 0, 0);
      PlainOne(env, i, k, t);
      MakeIs(MOVE, top, r, 0, 0);
      CopyRuns(env, i, t);
    }
  }

  lemma {:induction false} SecondRun<V, W>(env: Env<V, W>, c: Cond, l: Cond, r: Cond, k: nat, top: nat, sure: bool,
        m: State<V, W>, s0: State<V, W>, t: State<V, W>, fuel: nat)
    requires (c == And(l, r) || c == Or(l, r)) && Starts(env, c, k, top, sure, m, t) && Kept(s0, t, k, top)
    ensures Gives(env, Fetched(Value(env, r, m)), Ev(env, Second(l, r, k, top), t, fuel), s0, c, k, top)
    decreases c, 0
  {
    hide Plain, Acts, Ev, Fitting, HaltAgree, Sits, Eval, Copy, Value;
    var q := CondReg(l, top);
    CopyIs(env, top, q, k, t);
    var t1 := if q == top then t else State(Upd(t.regs, top, t.regs(q)), t.w);
    var copy := Copy(top, q, k);
    CondRun(env, r, k, top + 1, sure, copy, m, t, t1, fuel);
    var code, last := CondCode(r, k, top + 1, copy), Copy(top, CondReg(r, top + 1), k);
    EvSeq(env, code, Line(last), t, fuel);
    var b, o := Value(env, r, m), Ev(env, code, t, fuel);
    if b.Got? {
      PlaceIs(env, b.p, r, k, top + 1, sure, b.s, o.s);
      CopyIs(env, top, CondReg(r, top + 1), k, o.s);
      LineIs(env, last, o.s, fuel);
    }
  }

  lemma EvSeq<V, W>(env: Env<V, W>, a: Code, b: Code, s: State<V, W>, fuel: nat)
    ensures var o := Ev(env, a, s, fuel);
      Ev(env, Seq(a, b), s, fuel) == if o.Fell? then Ev(env, b, o.s, fuel) else o
  {
  }
}
