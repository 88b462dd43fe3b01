/** How a free name of a nested function is bound: at compile time to an entry of
    the function's outer list, at run time to a cell when the closure is made. */
module Resolve {
  import opened Common
  import Outers

  type Name = string

  /** A register of a function being compiled: a named local, or a temporary. */
  datatype Local = Local(name: Option<Name>, captured: bool)

  /** Where a closure finds a captured variable: a register of the enclosing
      function, or an entry of the enclosing function's own outer list. */
  datatype OuterVar = OuterVar(name: Name, isLocal: bool, src: nat)

  datatype Scope = Scope(locals: seq<Local>, outers: seq<OuterVar>)

  // ------------------------------------------------------------------ meaning

  /** The register of the latest declaration of `name`, or -1. */
  function LocalOf(locals: seq<Local>, name: Name): (r: int)
    ensures -1 <= r < |locals|
  {
    if locals == [] then -1
    else if locals[|locals| - 1].name == Some(name) then |locals| - 1
    else LocalOf(locals[..|locals| - 1], name)
  }

  /** The function and register of the nearest declaration at or outside `level`. */
  function Nearest(funcs: seq<Scope>, level: int, name: Name): Option<(int, int)>
    requires level < |funcs|
    decreases level
  {
    if level < 0 then None
    else
      var r := LocalOf(funcs[level].locals, name);
      if r != -1 then Some((level, r)) else Nearest(funcs, level - 1, name)
  }

  /** An outer entry says where the nearest declaration is found one level out. */
  ghost predicate Sound(funcs: seq<Scope>, level: int, e: OuterVar)
    requires 0 <= level < |funcs|
  {
    && level >= 1
    && var up := funcs[level - 1];
       if e.isLocal
       then e.src == LocalOf(up.locals, e.name) && up.locals[e.src].captured
       else LocalOf(up.locals, e.name) == -1 && e.src < |up.outers| && up.outers[e.src].name == e.name
  }

  ghost predicate SoundAt(funcs: seq<Scope>, level: int)
    requires 0 <= level < |funcs|
  {
    && (forall i :: 0 <= i < |funcs[level].outers| ==> Sound(funcs, level, funcs[level].outers[i]))
    && (forall i, j :: 0 <= i < j < |funcs[level].outers| ==> funcs[level].outers[i].name != funcs[level].outers[j].name)
  }

  ghost predicate AllSound(funcs: seq<Scope>) {
    forall k :: 0 <= k < |funcs| ==> SoundAt(funcs, k)
  }

  /** Where following an outer entry leads. */
  ghost function Target(funcs: seq<Scope>, level: int, pos: nat): (int, int)
    requires AllSound(funcs) && 0 <= level < |funcs| && pos < |funcs[level].outers|
    decreases level
  {
    var e := funcs[level].outers[pos];
    assert SoundAt(funcs, level) && Sound(funcs, level, e);
    if e.isLocal then (level - 1, e.src) else Target(funcs, level - 1, e.src)
  }

  /** Through any depth, an entry leads to the nearest enclosing declaration of its name. */
  lemma {:induction false} TargetIsNearest(funcs: seq<Scope>, level: int, pos: nat)
    requires AllSound(funcs) && 0 <= level < |funcs| && pos < |funcs[level].outers|
    ensures Nearest(funcs, level - 1, funcs[level].outers[pos].name) == Some(Target(funcs, level, pos))
    decreases level
  {
    var e := funcs[level].outers[pos];
    assert SoundAt(funcs, level) && Sound(funcs, level, e);
    if !e.isLocal { TargetIsNearest(funcs, level - 1, e.src); }
  }

  // ----------------------------------------------------------------- run time

  /** The cells of the closures of a chain of activations: each entry was bound
      when its closure was made, in the activation one level out whose register
      `r` then stood for cell `cell(r)`. */
  ghost predicate Bound(funcs: seq<Scope>, cells: seq<seq<nat>>, envs: seq<int -> nat>) {
    && |cells| == |envs| == |funcs|
    && forall k :: 0 <= k < |funcs| ==>
      |funcs[k].outers| <= |cells[k]| && (k >= 1 ==> BoundAt(funcs[k], cells[k], cells[k - 1], envs[k - 1]))
  }

  ghost predicate BoundAt(f: Scope, cells: seq<nat>, up: seq<nat>, env: int -> nat)
    requires |f.outers| <= |cells|
  {
    forall i :: 0 <= i < |f.outers| ==>
      if f.outers[i].isLocal then cells[i] == env(f.outers[i].src)
      else f.outers[i].src < |up| && cells[i] == up[f.outers[i].src]
  }

  /** Resolution followed by closure creation binds every free name, at any depth,
      to the cell of the nearest enclosing declaration. */
  lemma {:induction false} BindsNearest(funcs: seq<Scope>, cells: seq<seq<nat>>, envs: seq<int -> nat>, level: int, pos: nat)
    requires AllSound(funcs) && Bound(funcs, cells, envs) && 0 <= level < |funcs| && pos < |funcs[level].outers|
    ensures var n := Nearest(funcs, level - 1, funcs[level].outers[pos].name);
            n.Some? && 0 <= n.value.0 < level && cells[level][pos] == envs[n.value.0](n.value.1)
    decreases level
  {
    var e := funcs[level].outers[pos];
    assert SoundAt(funcs, level) && Sound(funcs, level, e);
    assert BoundAt(funcs[level], cells[level], cells[level - 1], envs[level - 1]);
    if !e.isLocal { BindsNearest(funcs, cells, envs, level - 1, e.src); }
  }

  /** CLOSURE: captures registers of the running frame at `base` and copies
      entries of the running closure, in the order of the function's outer list. */
  method MakeClosure<V>(f: Outers.VarStack<V>, base: nat, outers: seq<OuterVar>, current: seq<nat>) returns (closure: seq<nat>)
    requires f.Valid() && |f.stack| == |f.store.env|
    requires forall i :: 0 <= i < |outers| ==> if outers[i].isLocal then base + outers[i].src < |f.stack| else outers[i].src < |current|
    requires forall i :: 0 <= i < |current| ==> current[i] < |f.store.outers|
    modifies f
    ensures f.Valid() && f.store == old(f.store).(outers := f.store.outers)
    ensures |old(f.store).outers| <= |f.store.outers| && f.store.outers[..|old(f.store).outers|] == old(f.store).outers
    ensures |closure| == |outers|
    ensures forall i :: 0 <= i < |outers| ==>
              && closure[i] < |f.store.outers|
              && f.store.outers[closure[i]] ==
                 if outers[i].isLocal then old(f.store).env[base + outers[i].src] else old(f.store).outers[current[outers[i].src]]
  {
    hide Outers.Chained, Outers.Descending, Outers.Represents;
    closure := [];
    for i := 0 to |outers|
      invariant f.Valid() && f.stack == old(f.stack) && f.store == old(f.store).(outers := f.store.outers)
      invariant |old(f.store).outers| <= |f.store.outers| && f.store.outers[..|old(f.store).outers|] == old(f.store).outers
      invariant |closure| == i
      invariant forall j :: 0 <= j < i ==>
                  && closure[j] < |f.store.outers|
                  && f.store.outers[closure[j]] ==
                     if outers[j].isLocal then old(f.store).env[base + outers[j].src] else old(f.store).outers[current[outers[j].src]]
    {
      var v := outers[i];
      ghost var was := f.store.outers;
      if v.isLocal {
        var h := f.FindOuter(base + v.src);
        closure := closure + [h];
      } else {
        closure := closure + [current[v.src]];
        assert f.store.outers[current[v.src]] == f.store.outers[..|old(f.store).outers|][current[v.src]];
      }
    }
  }

  // -------------------------------------------------------------- nested closures

  /** `chains[k]` is the chain of functions as the compiler had it when it finished the function at
      level `k`; the functions around it may have gained entries since. */
  ghost predicate Compiled(chains: seq<seq<Scope>>) {
    forall k :: 0 <= k < |chains| ==> CompiledAt(chains, k)
  }

  ghost predicate CompiledAt(chains: seq<seq<Scope>>, k: nat)
    requires k < |chains|
  {
    && |chains[k]| == k + 1 && AllSound(chains[k])
    && forall j :: 0 <= j < k ==> |chains[j]| == j + 1 && chains[k][j].outers <= chains[j][j].outers
  }

  /** The closure of each level was made in the activation one level out. */
  ghost predicate Linked(chains: seq<seq<Scope>>, cells: seq<seq<nat>>, envs: seq<int -> nat>) {
    && |cells| == |envs| == |chains|
    && forall k :: 0 <= k < |chains| ==> LinkedAt(chains, cells, envs, k)
  }

  ghost predicate LinkedAt(chains: seq<seq<Scope>>, cells: seq<seq<nat>>, envs: seq<int -> nat>, k: nat)
    requires k < |chains| == |cells| == |envs|
  {
    && |chains[k]| == k + 1 && |cells[k]| == |chains[k][k].outers|
    && (k >= 1 ==> BoundAt(chains[k][k], cells[k], cells[k - 1], envs[k - 1]))
  }

  /** The outers a closure holds stand for its cells. */
  ghost predicate Holds(outers: seq<nat>, closures: seq<seq<nat>>, cells: seq<seq<nat>>) {
    && |closures| == |cells|
    && forall k :: 0 <= k < |closures| ==> HoldsAt(outers, closures[k], cells[k])
  }

  ghost predicate HoldsAt(outers: seq<nat>, closure: seq<nat>, cells: seq<nat>) {
    && |closure| == |cells|
    && forall i :: 0 <= i < |closure| ==> closure[i] < |outers| && outers[closure[i]] == cells[i]
  }

  /** The cells of the registers of the activation at `base`. */
  ghost function Registers(env: seq<nat>, base: nat): int -> nat {
    r => if 0 <= base + r < |env| then env[base + r] else 0
  }

  lemma LinkedIsBound(chains: seq<seq<Scope>>, cells: seq<seq<nat>>, envs: seq<int -> nat>)
    requires chains != [] && Compiled(chains) && Linked(chains, cells, envs)
    ensures Bound(chains[|chains| - 1], cells, envs)
  {
    var n := |chains| - 1;
    assert CompiledAt(chains, n);
    forall k | 0 <= k < |chains[n]|
      ensures |chains[n][k].outers| <= |cells[k]| && (k >= 1 ==> BoundAt(chains[n][k], cells[k], cells[k - 1], envs[k - 1]))
    {
      assert LinkedAt(chains, cells, envs, k);
      assert chains[n][k].outers <= chains[k][k].outers;
    }
  }

  lemma HoldsLonger(outers: seq<nat>, more: seq<nat>, closures: seq<seq<nat>>, cells: seq<seq<nat>>)
    requires Holds(outers, closures, cells) && |outers| <= |more| && more[..|outers|] == outers
    ensures Holds(more, closures, cells)
  {
    forall k | 0 <= k < |closures| ensures HoldsAt(more, closures[k], cells[k]) {
      assert HoldsAt(outers, closures[k], cells[k]);
      forall i | 0 <= i < |closures[k]| ensures closures[k][i] < |more| && more[closures[k][i]] == cells[k][i] {
        assert more[closures[k][i]] == more[..|outers|][closures[k][i]];
      }
    }
  }

  /** One level more. */
  lemma LinkedDeeper(chains: seq<seq<Scope>>, cells: seq<seq<nat>>, envs: seq<int -> nat>, chain: seq<Scope>,
        own: seq<nat>, env: int -> nat)
    requires chains != [] && Compiled(chains) && Linked(chains, cells, envs) && CompiledAt(chains + [chain], |chains|)
    requires |own| == |chain[|chains|].outers| && BoundAt(chain[|chains|], own, cells[|chains| - 1], env)
    ensures Compiled(chains + [chain])
    ensures Linked(chains + [chain], cells + [own], envs[|chains| - 1 := env] + [env])
  {
    var n := |chains|;
    var chains', cells', envs' := chains + [chain], cells + [own], envs[n - 1 := env] + [env];
    forall k | 0 <= k < |chains'| ensures CompiledAt(chains', k) && LinkedAt(chains', cells', envs', k) {
      if k < n { assert CompiledAt(chains, k) && LinkedAt(chains, cells, envs, k); }
    }
  }

  lemma LinkedOuter(chains: seq<seq<Scope>>, cells: seq<seq<nat>>, envs: seq<int -> nat>)
    requires |chains| >= 2 && Compiled(chains) && Linked(chains, cells, envs)
    ensures Compiled(chains[..|chains| - 1]) && Linked(chains[..|chains| - 1], cells[..|chains| - 1], envs[..|chains| - 1])
  {
    var n := |chains| - 1;
    forall k | 0 <= k < n ensures CompiledAt(chains[..n], k) && LinkedAt(chains[..n], cells[..n], envs[..n], k) {
      assert CompiledAt(chains, k) && LinkedAt(chains, cells, envs, k);
    }
  }

  /** A nest of closures: each was made by CLOSURE in an activation of the function around it.
      Between any two of these anything may happen to the variables. */
  class Activations<V> {
    const vars: Outers.VarStack<V>
    var closures: seq<seq<nat>>
    ghost var chains: seq<seq<Scope>>
    ghost var cells: seq<seq<nat>>
    ghost var envs: seq<int -> nat>

    ghost predicate Valid()
      reads this, vars
    {
      && vars.Valid() && Outers.Proper(vars.store) && |vars.store.env| == |vars.stack|
      && chains != [] && Compiled(chains) && Linked(chains, cells, envs) && Holds(vars.store.outers, closures, cells)
    }

    /** The outermost function: it captures nothing. */
    constructor (vars: Outers.VarStack<V>, ghost main: Scope)
      requires vars.Valid() && main.outers == []
      ensures Valid() && this.vars == vars && chains == [[main]]
    {
      this.vars := vars;
      closures, chains, cells, envs := [[]], [[main]], [[]], [r => 0];
      Outers.SameSize(vars.stack, vars.outers, vars.store);
    }

    /** Any run of captures, reads, writes, closings and moves of the stack changes no binding. */
    method Perform(ops: seq<Outers.Op<V>>)
      requires Valid() && Outers.LegalRun(vars.store, ops)
      requires forall k :: 0 <= k < |ops| && ops[k].Grow? ==> ops[k].nil == vars.nil
      modifies vars
      ensures Valid() && vars.store == Outers.Run(old(vars.store), ops)
    {
      hide Outers.Chained, Outers.Descending, Outers.Represents, Outers.Proper, Compiled, Linked, Holds;
      Outers.RunKeepsOuters(vars.store, ops);
      ghost var was := vars.store.outers;
      vars.Perform(ops);
      Outers.SameSize(vars.stack, vars.outers, vars.store);
      HoldsLonger(was, vars.store.outers, closures, cells);
    }

    /** CLOSURE in the activation at `base` makes the closure of the next level. */
    method Enter(outers: seq<OuterVar>, base: nat, ghost chain: seq<Scope>)
      requires Valid() && CompiledAt(chains + [chain], |chains|) && outers == chain[|chains|].outers
      requires base + |chain[|chains| - 1].locals| <= |vars.stack|
      modifies this, vars
      ensures Valid() && chains == old(chains) + [chain] && vars.store == old(vars.store).(outers := vars.store.outers)
      ensures envs == old(envs)[|old(chains)| - 1 := Registers(old(vars.store).env, base)] + [Registers(old(vars.store).env, base)]
    {
      hide Outers.Chained, Outers.Descending, Outers.Represents, Compiled, Linked, Holds;
      ghost var n, was := |chains|, vars.store;
      Sources(chains, chain, cells, envs, closures, vars.store.outers);
      var current := closures[|closures| - 1];
      var closure := MakeClosure(vars, base, outers, current);
      Outers.SameSize(vars.stack, vars.outers, vars.store);
      ghost var own := Picked(vars.store.outers, closure);
      HoldsLonger(was.outers, vars.store.outers, closures, cells);
      OwnBound(was, outers, closure, current, vars.store.outers, cells[n - 1], base, chain[n], own);
      LinkedDeeper(chains, cells, envs, chain, own, Registers(was.env, base));
      HoldsDeeper(vars.store.outers, closures, cells, closure, own);
      closures := closures + [closure];
      chains := chains + [chain];
      cells, envs := cells + [own], envs[n - 1 := Registers(was.env, base)] + [Registers(was.env, base)];
    }

    /** Back to the function around the current one. */
    method Leave()
      requires Valid() && |chains| >= 2
      modifies this
      ensures Valid() && chains == old(chains)[..|old(chains)| - 1] && envs == old(envs)[..|old(chains)| - 1]
    {
      var n := |closures| - 1;
      LinkedOuter(chains, cells, envs);
      closures := closures[..n];
      chains, cells, envs := chains[..n], cells[..n], envs[..n];
    }

    /** The outer at `pos` stands for the cell of the nearest enclosing declaration of its name. */
    lemma FreeBinds(pos: nat)
      requires Valid() && closures != [] && pos < |closures[|closures| - 1]|
      ensures var n := |chains| - 1;
              && |closures| == |chains| == |envs| && |chains[n]| == n + 1 && pos < |chains[n][n].outers|
              && closures[n][pos] < |vars.store.outers|
              && var near := Nearest(chains[n], n - 1, chains[n][n].outers[pos].name);
              && near.Some? && 0 <= near.value.0 < n
              && vars.store.outers[closures[n][pos]] == envs[near.value.0](near.value.1) < |vars.store.cells|
    {
      hide Outers.Chained, Outers.Descending, Outers.Represents;
      var n := |closures| - 1;
      assert LinkedAt(chains, cells, envs, n) && HoldsAt(vars.store.outers, closures[n], cells[n]);
      LinkedIsBound(chains, cells, envs);
      assert CompiledAt(chains, n);
      BindsNearest(chains[n], cells, envs, n, pos);
    }

    /** GETOUTER: a free name of the current function reads the variable of its nearest enclosing
        declaration, the one that stood in that register when the closure around it was made. */
    method ReadFree(pos: nat) returns (v: V)
      requires Valid() && closures != [] && pos < |closures[|closures| - 1]|
      ensures var n := |chains| - 1;
              && |chains[n]| == n + 1 && pos < |chains[n][n].outers|
              && var near := Nearest(chains[n], n - 1, chains[n][n].outers[pos].name);
              && near.Some? && 0 <= near.value.0 < n && envs[near.value.0](near.value.1) < |vars.store.cells|
              && v == vars.store.cells[envs[near.value.0](near.value.1)]
    {
      var n := |closures| - 1;
      FreeBinds(pos);
      v := vars.ReadOuter(closures[n][pos]);
    }

    /** SETOUTER: a write to a free name changes that same variable and no other. */
    method WriteFree(pos: nat, v: V)
      requires Valid() && closures != [] && pos < |closures[|closures| - 1]|
      modifies vars
      ensures Valid()
      ensures var n := |chains| - 1;
              && |chains[n]| == n + 1 && pos < |chains[n][n].outers|
              && var near := Nearest(chains[n], n - 1, chains[n][n].outers[pos].name);
              near.Some? && 0 <= near.value.0 < n && vars.store == Outers.Write(old(vars.store), envs[near.value.0](near.value.1), v)
    {
      hide Outers.Chained, Outers.Descending, Outers.Represents, Compiled, Linked, Holds, Nearest;
      var n := |closures| - 1;
      FreeBinds(pos);
      Outers.SameSize(vars.stack, vars.outers, vars.store);
      vars.WriteOuter(closures[n][pos], v);
      Outers.SameSize(vars.stack, vars.outers, vars.store);
    }
  }

  lemma HoldsDeeper(outers: seq<nat>, closures: seq<seq<nat>>, cells: seq<seq<nat>>, closure: seq<nat>, own: seq<nat>)
    requires Holds(outers, closures, cells) && HoldsAt(outers, closure, own)
    ensures Holds(outers, closures + [closure], cells + [own])
  {
    forall k | 0 <= k < |closures| + 1 ensures HoldsAt(outers, (closures + [closure])[k], (cells + [own])[k]) {
      if k < |closures| { assert HoldsAt(outers, closures[k], cells[k]); }
    }
  }

  ghost function Picked(outers: seq<nat>, closure: seq<nat>): (r: seq<nat>)
    requires forall i :: 0 <= i < |closure| ==> closure[i] < |outers|
    ensures |r| == |closure| && forall i :: 0 <= i < |r| ==> r[i] == outers[closure[i]]
  {
    seq(|closure|, i requires 0 <= i < |closure| => outers[closure[i]])
  }

  /** The sources of a sound outer list exist at run time. */
  lemma Sources(chains: seq<seq<Scope>>, chain: seq<Scope>, cells: seq<seq<nat>>, envs: seq<int -> nat>,
        closures: seq<seq<nat>>, outers: seq<nat>)
    requires chains != [] && Compiled(chains) && Linked(chains, cells, envs) && Holds(outers, closures, cells)
    requires CompiledAt(chains + [chain], |chains|)
    ensures |closures| == |cells| == |envs| == |chains|
    ensures var n := |chains|;
            && (forall i :: 0 <= i < |chain[n].outers| ==>
                  if chain[n].outers[i].isLocal then chain[n].outers[i].src < |chain[n - 1].locals|
                  else chain[n].outers[i].src < |closures[n - 1]|)
            && HoldsAt(outers, closures[n - 1], cells[n - 1])
  {
    var n := |chains|;
    assert LinkedAt(chains, cells, envs, n - 1) && HoldsAt(outers, closures[n - 1], cells[n - 1]);
    assert (chains + [chain])[n] == chain && (chains + [chain])[n - 1] == chains[n - 1];
    assert SoundAt(chain, n);
    forall i | 0 <= i < |chain[n].outers|
      ensures chain[n].outers[i].src < if chain[n].outers[i].isLocal then |chain[n - 1].locals| else |closures[n - 1]|
    {
      assert Sound(chain, n, chain[n].outers[i]);
    }
  }

  lemma OwnBound<V>(was: Outers.Store<V>, outers: seq<OuterVar>, closure: seq<nat>, current: seq<nat>, now: seq<nat>,
        up: seq<nat>, base: nat, f: Scope, own: seq<nat>)
    requires f.outers == outers && |closure| == |outers| == |own| && HoldsAt(was.outers, current, up)
    requires forall i :: 0 <= i < |outers| ==> if outers[i].isLocal then base + outers[i].src < |was.env| else outers[i].src < |current|
    requires forall i :: 0 <= i < |outers| ==>
               && closure[i] < |now| && own[i] == now[closure[i]]
               && now[closure[i]] == if outers[i].isLocal then was.env[base + outers[i].src] else was.outers[current[outers[i].src]]
    ensures BoundAt(f, own, up, Registers(was.env, base))
  {
  }

  // ------------------------------------------------------------- compile time

  lemma {:induction false} LocalOfLast(locals: seq<Local>, name: Name, k: nat)
    requires k < |locals| && locals[k].name == Some(name)
    requires forall j :: k < j < |locals| ==> locals[j].name != Some(name)
    ensures LocalOf(locals, name) == k
    decreases |locals|
  {
    if k < |locals| - 1 { LocalOfLast(locals[..|locals| - 1], name, k); }
  }

  lemma {:induction false} LocalOfNone(locals: seq<Local>, name: Name)
    requires forall j :: 0 <= j < |locals| ==> locals[j].name != Some(name)
    ensures LocalOf(locals, name) == -1
    decreases |locals|
  {
    if locals != [] { LocalOfNone(locals[..|locals| - 1], name); }
  }

  /** Same names in the same registers; marks only added. */
  ghost predicate SameNames(a: seq<Local>, b: seq<Local>) {
    && |a| == |b|
    && forall i :: 0 <= i < |a| ==> a[i].name == b[i].name && (a[i].captured ==> b[i].captured)
  }

  lemma {:induction false} SameLocalOf(a: seq<Local>, b: seq<Local>, name: Name)
    requires SameNames(a, b)
    ensures LocalOf(a, name) == LocalOf(b, name)
    decreases |a|
  {
    if a != [] {
      var n := |a| - 1;
      SameLocalOf(a[..n], b[..n], name);
    }
  }

  /** The chain grew: names stay, outer lists only get longer, levels above `level` are untouched. */
  ghost predicate Grew(a: seq<Scope>, b: seq<Scope>, level: int) {
    && |a| == |b|
    && (forall k :: 0 <= k < |a| ==> SameNames(a[k].locals, b[k].locals) && a[k].outers <= b[k].outers)
    && (forall k :: 0 <= k < |a| && level < k ==> a[k] == b[k])
  }

  /** Growth at and below a level keeps the entries one level up sound. */
  lemma GrewSound(a: seq<Scope>, b: seq<Scope>, level: int, k: int, e: OuterVar)
    requires Grew(a, b, level) && 0 <= k < |a| && Sound(a, k, e)
    ensures Sound(b, k, e)
  {
    SameLocalOf(a[k - 1].locals, b[k - 1].locals, e.name);
  }

  /** Entry `e` joins the outer list of `level`. */
  lemma AddedSound(a: seq<Scope>, b: seq<Scope>, level: int, e: OuterVar)
    requires AllSound(a) && 0 <= level < |a| == |b| && Grew(a, b, level)
    requires forall k :: 0 <= k < |a| && k != level ==> b[k].outers == a[k].outers
    requires b[level].outers == a[level].outers + [e] && Sound(b, level, e)
    requires forall i :: 0 <= i < |a[level].outers| ==> a[level].outers[i].name != e.name
    ensures AllSound(b)
  {
    forall k | 0 <= k < |b| ensures SoundAt(b, k) {
      assert SoundAt(a, k);
      forall i | 0 <= i < |b[k].outers| ensures Sound(b, k, b[k].outers[i]) {
        if i < |a[k].outers| { GrewSound(a, b, level, k, a[k].outers[i]); }
      }
    }
  }

  function Marked(locals: seq<Local>, pos: int): (r: seq<Local>)
    ensures |r| == |locals|
  {
    if 0 <= pos < |locals| then locals[pos := locals[pos].(captured := true)] else locals
  }

  /** Some register from `size` up was captured. */
  ghost predicate AnyCaptured(locals: seq<Local>, size: nat) {
    exists i :: size <= i < |locals| && locals[i].captured
  }

  /** What the compiler does to the functions being compiled. */
  datatype Act = Begin | Declare(local: Option<Name>) | Use(name: Name) | Close(size: nat) | End

  function Deeper(depth: int, act: Act): int {
    match act
    case Begin => depth + 1
    case End => depth - 1
    case _ => depth
  }

  function Depth(depth: int, acts: seq<Act>): int
    decreases |acts|
  {
    if acts == [] then depth else Depth(Deeper(depth, acts[0]), acts[1..])
  }

  /** At least `floor` functions are being compiled throughout. */
  predicate Within(depth: int, acts: seq<Act>, floor: int)
    decreases |acts|
  {
    depth >= floor && (acts == [] || Within(Deeper(depth, acts[0]), acts[1..], floor))
  }

  /** The `floor` outermost functions gained entries at most, and all but the last of these gained no names. */
  ghost predicate Later(a: seq<Scope>, b: seq<Scope>, floor: nat) {
    && floor <= |a| && floor <= |b|
    && (forall k :: 0 <= k < floor ==> a[k].outers <= b[k].outers)
    && (forall k :: 0 <= k < floor - 1 ==> SameNames(a[k].locals, b[k].locals))
  }

  lemma LaterLess(a: seq<Scope>, b: seq<Scope>, top: nat, floor: nat)
    requires floor <= top && Later(a, b, top)
    ensures Later(a, b, floor)
  {
  }

  lemma LaterTrans(a: seq<Scope>, b: seq<Scope>, c: seq<Scope>, floor: nat)
    requires Later(a, b, floor) && Later(b, c, floor)
    ensures Later(a, c, floor)
  {
  }

  /** The chains of the finished functions of a nest from level `k` up. */
  ghost predicate FinishedFrom(done: seq<seq<Scope>>, k: nat) {
    && (forall j :: 0 <= j < |done| ==> |done[j]| == k + j + 1 && AllSound(done[j]))
    && (forall i, j :: 0 <= i < j < |done| ==> done[j][k + i].outers <= done[i][k + i].outers)
  }

  lemma OneFinished(done: seq<seq<Scope>>, k: nat, was: seq<Scope>, chain: seq<Scope>)
    requires FinishedFrom(done, k + 1) && |chain| == k + 1 && AllSound(chain) && Later(was, chain, k + 1)
    requires forall j :: 0 <= j < |done| ==> Later(done[j], was, k + 1)
    ensures FinishedFrom([chain] + done, k)
    ensures forall j :: 0 <= j < |done| + 1 ==> Later(([chain] + done)[j], chain[..k], k)
  {
    hide AllSound, Later;
    var all: seq<seq<Scope>> := [chain] + done;
    forall j | 0 <= j < |all| ensures Later(all[j], chain[..k], k) && all[j][k].outers <= chain[k].outers {
      if j > 0 { LaterTrans(done[j - 1], was, chain, k + 1); } else { LaterSelf(chain, k + 1); }
      LaterCut(all[j], chain, k);
    }
    forall i: nat, j: nat | 0 <= i < j < |all| ensures all[j][k + i].outers <= all[i][k + i].outers {
      if i > 0 { assert done[j - 1][k + 1 + (i - 1)].outers <= done[i - 1][k + 1 + (i - 1)].outers; }
    }
  }

  lemma LaterSelf(a: seq<Scope>, floor: nat)
    requires floor <= |a|
    ensures Later(a, a, floor)
  {
  }

  lemma LaterCut(a: seq<Scope>, b: seq<Scope>, k: nat)
    requires Later(a, b, k + 1) && |b| == k + 1
    ensures |a| > k && Later(a, b[..k], k) && a[k].outers <= b[k].outers
  {
  }

  /** What was found one level out makes a sound entry. */
  lemma Linkable(a: seq<Scope>, b: seq<Scope>, level: int, e: OuterVar)
    requires 1 <= level < |a| == |b| && Grew(a, b, level - 1)
    requires var r := LocalOf(a[level - 1].locals, e.name);
      if e.isLocal then e.src == r && b[level - 1].locals[r].captured
      else r == -1 && e.src < |b[level - 1].outers| && b[level - 1].outers[e.src].name == e.name
    ensures Sound(b, level, e) && b[level] == a[level]
  {
    SameLocalOf(a[level - 1].locals, b[level - 1].locals, e.name);
  }

  /** An entry added at `level` after one may have been added at the levels below. */
  lemma EntryAdded(a: seq<Scope>, b: seq<Scope>, c: seq<Scope>, level: int, e: OuterVar, near: Option<(int, int)>)
    requires 1 <= level < |a| == |b| && Grew(a, b, level - 1) && MarksOnly(a, b, near)
    requires c == b[level := b[level].(outers := b[level].outers + [e])]
    requires NoneBut(a, b, e.name)
    ensures Grew(a, c, level) && MarksOnly(a, c, near) && NoneBut(a, c, e.name)
    ensures |c[level].outers| == |b[level].outers| + 1 && c[level].outers[|b[level].outers|] == e
  {
  }

  /** No function gained an entry but one for `name`. */
  ghost predicate NoneBut(a: seq<Scope>, b: seq<Scope>, name: Name) {
    && |a| == |b|
    && forall k :: 0 <= k < |a| ==> b[k].outers == a[k].outers || AddsOnly(a[k].outers, b[k].outers, name)
  }

  lemma Untouched(a: seq<Scope>, level: int, name: Name)
    ensures Grew(a, a, level) && NoneBut(a, a, name)
  {
  }

  /** The functions being compiled, outermost first; the last one is current. */
  class FuncStates {
    var funcs: seq<Scope>

    ghost predicate Valid()
      reads this
    {
      AllSound(funcs)
    }

    constructor ()
      ensures Valid() && funcs == []
    {
      funcs := [];
    }

    /** A nested function begins. */
    method PushFunction()
      requires Valid()
      modifies this
      ensures Valid() && funcs == old(funcs) + [Scope([], [])]
    {
      funcs := funcs + [Scope([], [])];
      forall k | 0 <= k < |funcs| ensures SoundAt(funcs, k) {
        if k < |old(funcs)| { SamePrefix(old(funcs), funcs, k); }
      }
    }

    /** The current function is complete: every entry of its outer list leads to
        the nearest enclosing declaration of the entry's name. */
    method PopFunction() returns (outers: seq<OuterVar>)
      requires Valid() && funcs != []
      modifies this
      ensures Valid() && funcs == old(funcs)[..|old(funcs)| - 1]
      ensures outers == old(funcs)[|old(funcs)| - 1].outers
      ensures forall i :: 0 <= i < |outers| ==> Nearest(funcs, |funcs| - 1, outers[i].name).Some?
    {
      var n := |funcs| - 1;
      outers := funcs[n].outers;
      forall i | 0 <= i < |outers| ensures Nearest(funcs[..n], n - 1, outers[i].name).Some? {
        TargetIsNearest(funcs, n, i);
        NearestPrefix(funcs, n, n - 1, outers[i].name);
      }
      forall k | 0 <= k < n ensures SoundAt(funcs[..n], k) { assert SoundAt(funcs, k); SamePrefix(funcs, funcs[..n], k); }
      funcs := funcs[..n];
    }

    /** A local or a temporary takes the next register of the current function. */
    method PushLocal(name: Option<Name>) returns (pos: nat)
      requires Valid() && funcs != []
      modifies this
      ensures Valid() && |funcs| == |old(funcs)| && funcs[..|funcs| - 1] == old(funcs)[..|funcs| - 1]
      ensures funcs[|funcs| - 1] == old(funcs)[|funcs| - 1].(locals := old(funcs)[|funcs| - 1].locals + [Local(name, false)])
      ensures pos == |old(funcs)[|funcs| - 1].locals|
    {
      var n := |funcs| - 1;
      pos := |funcs[n].locals|;
      OwnLocals(funcs, funcs[n].locals + [Local(name, false)]);
      funcs := funcs[n := funcs[n].(locals := funcs[n].locals + [Local(name, false)])];
    }

    /** The registers from `size` up end; a CLOSE is emitted exactly when one of them was captured. */
    method EndScope(size: nat) returns (close: bool)
      requires Valid() && funcs != [] && size <= |funcs[|funcs| - 1].locals|
      modifies this
      ensures Valid() && |funcs| == |old(funcs)| && funcs[..|funcs| - 1] == old(funcs)[..|funcs| - 1]
      ensures funcs[|funcs| - 1] == old(funcs)[|funcs| - 1].(locals := old(funcs)[|funcs| - 1].locals[..size])
      ensures close <==> AnyCaptured(old(funcs)[|funcs| - 1].locals, size)
    {
      var n := |funcs| - 1;
      var locals := funcs[n].locals;
      close := false;
      var k := |locals|;
      while k > size
        invariant size <= k <= |locals|
        invariant close <==> AnyCaptured(locals, k)
      {
        k := k - 1;
        if locals[k].captured { close := true; }
      }
      OwnLocals(funcs, locals[..size]);
      funcs := funcs[n := funcs[n].(locals := locals[..size])];
    }

    /** The latest declaration of `name` in the function at `level`. */
    method GetLocalVariable(level: nat, name: Name) returns (pos: int)
      requires level < |funcs|
      ensures pos == LocalOf(funcs[level].locals, name)
    {
      var locals := funcs[level].locals;
      pos := |locals| - 1;
      while pos >= 0
        invariant -1 <= pos < |locals|
        invariant forall j :: pos < j < |locals| ==> locals[j].name != Some(name)
      {
        if locals[pos].name == Some(name) {
          LocalOfLast(locals, name, pos);
          return;
        }
        pos := pos - 1;
      }
      LocalOfNone(locals, name);
    }

    /** The outer entry for `name` in the function at `level`, made on demand there and in
        the functions between it and the declaration; an undeclared name adds no entry anywhere. */
    method GetOuterVariable(level: nat, name: Name) returns (pos: int)
      requires Valid() && level < |funcs|
      modifies this
      ensures Valid() && Grew(old(funcs), funcs, level)
      ensures pos == -1 <==> Nearest(old(funcs), level - 1, name) == None
      ensures pos == -1 ==> funcs == old(funcs)
      ensures pos != -1 ==> MarksOnly(old(funcs), funcs, Nearest(old(funcs), level - 1, name))
      ensures pos != -1 ==> 0 <= pos < |funcs[level].outers| && funcs[level].outers[pos].name == name
      ensures |funcs| == |old(funcs)| && NoneBut(old(funcs), funcs, name)
      decreases level
    {
      hide AllSound, Sound, MarksOnly, Grew, NoneBut;
      Untouched(funcs, level, name);
      var outers := funcs[level].outers;
      for i := 0 to |outers|
        invariant forall j :: 0 <= j < i ==> outers[j].name != name
        invariant funcs == old(funcs)
      {
        if outers[i].name == name {
          TargetIsNearest(funcs, level, i);
          TargetIsMarked(funcs, level, i);
          return i;
        }
      }
      if level == 0 { return -1; }
      ghost var start := funcs;
      pos := GetLocalVariable(level - 1, name);
      var isLocal := pos != -1;
      if isLocal {
        MarkLocalAsOuter(level - 1, pos);
      } else {
        pos := GetOuterVariable(level - 1, name);
        if pos == -1 { return -1; }
      }
      ghost var mid := funcs;
      Linkable(start, mid, level, OuterVar(name, isLocal, pos));
      AddOuter(level, OuterVar(name, isLocal, pos));
      EntryAdded(start, mid, funcs, level, OuterVar(name, isLocal, pos), Nearest(start, level - 1, name));
      return |funcs[level].outers| - 1;
    }

    method AddOuter(level: nat, e: OuterVar)
      requires Valid() && level < |funcs| && Sound(funcs, level, e)
      requires forall i :: 0 <= i < |funcs[level].outers| ==> funcs[level].outers[i].name != e.name
      modifies this
      ensures Valid() && Grew(old(funcs), funcs, level)
      ensures funcs == old(funcs)[level := old(funcs)[level].(outers := old(funcs)[level].outers + [e])]
    {
      ghost var was := funcs;
      funcs := funcs[level := funcs[level].(outers := funcs[level].outers + [e])];
      assert Grew(was, funcs, level);
      assert Sound(funcs, level, e);
      AddedSound(was, funcs, level, e);
    }

    method MarkLocalAsOuter(level: nat, pos: nat)
      requires Valid() && level < |funcs| && pos < |funcs[level].locals|
      modifies this
      ensures Valid() && Grew(old(funcs), funcs, level)
      ensures funcs == old(funcs)[level := old(funcs)[level].(locals := Marked(old(funcs)[level].locals, pos))]
    {
      ghost var was := funcs;
      funcs := funcs[level := funcs[level].(locals := Marked(funcs[level].locals, pos))];
      assert Grew(was, funcs, level);
      forall k | 0 <= k < |funcs| ensures SoundAt(funcs, k) {
        assert SoundAt(was, k);
        forall i | 0 <= i < |funcs[k].outers| ensures Sound(funcs, k, funcs[k].outers[i]) {
          GrewSound(was, funcs, level, k, was[k].outers[i]);
        }
      }
    }

    /** Any run of declarations, uses, scopes and complete nested functions: the functions that stay open
        keep their entries. */
    method Perform(acts: seq<Act>, floor: nat)
      requires Valid() && floor >= 1 && Within(|funcs|, acts, floor)
      modifies this
      ensures Valid() && |funcs| == Depth(|old(funcs)|, acts) && Later(old(funcs), funcs, floor)
    {
      for i := 0 to |acts|
        invariant Valid() && Within(|funcs|, acts[i..], floor) && Later(old(funcs), funcs, floor)
        invariant Depth(|funcs|, acts[i..]) == Depth(|old(funcs)|, acts)
      {
        assert acts[i..][0] == acts[i] && acts[i..][1..] == acts[i + 1..];
        ghost var was := funcs;
        One(acts[i]);
        assert Within(|funcs|, acts[i + 1..], floor);
        LaterLess(was, funcs, if acts[i].End? then |funcs| else |was|, floor);
        LaterTrans(old(funcs), was, funcs, floor);
      }
    }

    method One(act: Act)
      requires Valid() && funcs != [] && (act.End? ==> |funcs| >= 2)
      modifies this
      ensures Valid() && |funcs| == Deeper(|old(funcs)|, act)
      ensures Later(old(funcs), funcs, if act.End? then |funcs| else |old(funcs)|)
    {
      match act
      case Begin => PushFunction();
      case Declare(name) => var _ := PushLocal(name);
      case Use(name) =>
        var pos := GetLocalVariable(|funcs| - 1, name);
        if pos == -1 { pos := GetOuterVariable(|funcs| - 1, name); }
      case Close(size) => if size <= |funcs[|funcs| - 1].locals| { var _ := EndScope(size); }
      case End => var _ := PopFunction();
    }

    /** Finishes the open functions, the innermost first; the function at level `k` goes on with `acts[k]`
        before it ends.  The outer lists returned fit together as nested closures need. */
    method Finish(acts: seq<seq<Act>>) returns (lists: seq<seq<OuterVar>>, ghost chains: seq<seq<Scope>>)
      requires Valid() && |acts| == |funcs|
      requires forall k :: 0 <= k < |acts| ==> Within(k + 1, acts[k], k + 1) && Depth(k + 1, acts[k]) == k + 1
      modifies this
      ensures funcs == [] && |lists| == |chains| == |acts| && Compiled(chains)
      ensures forall k :: 0 <= k < |chains| ==> |chains[k]| == k + 1 && lists[k] == chains[k][k].outers
    {
      lists, chains := [], [];
      ghost var done: seq<seq<Scope>> := [];
      var k := |acts|;
      while k > 0
        invariant 0 <= k <= |acts| && |funcs| == k && Valid() && |lists| == |done| == |acts| - k
        invariant FinishedFrom(done, k)
        invariant forall j :: 0 <= j < |done| ==> lists[j] == done[j][k + j].outers && Later(done[j], funcs, k)
      {
        k := k - 1;
        ghost var was := funcs;
        Perform(acts[k], k + 1);
        ghost var chain := funcs;
        OneFinished(done, k, was, chain);
        var outers := PopFunction();
        lists := [outers] + lists;
        done := [chain] + done;
      }
      chains := done;
      forall k | 0 <= k < |chains| ensures CompiledAt(chains, k) {
        forall j | 0 <= j < k ensures chains[k][j].outers <= chains[j][j].outers {
          assert done[k][0 + j].outers <= done[j][0 + j].outers;
        }
      }
    }
  }

  /** Exactly the register of the declaration is marked as captured, in all the functions. */
  ghost predicate MarksOnly(a: seq<Scope>, b: seq<Scope>, near: Option<(int, int)>) {
    && near.Some? && |a| == |b|
    && forall k :: 0 <= k < |a| ==> b[k].locals == if k == near.value.0 then Marked(a[k].locals, near.value.1) else a[k].locals
  }

  /** The register an existing entry leads to is marked already. */
  lemma {:induction false} TargetIsMarked(funcs: seq<Scope>, level: int, pos: nat)
    requires AllSound(funcs) && 0 <= level < |funcs| && pos < |funcs[level].outers|
    ensures MarksOnly(funcs, funcs, Some(Target(funcs, level, pos)))
    decreases level
  {
    var e := funcs[level].outers[pos];
    assert SoundAt(funcs, level) && Sound(funcs, level, e);
    if !e.isLocal { TargetIsMarked(funcs, level - 1, e.src); }
  }

  /** One entry, for `name`, has been appended. */
  ghost predicate AddsOnly(a: seq<OuterVar>, b: seq<OuterVar>, name: Name) {
    |b| == |a| + 1 && b[..|a|] == a && b[|a|].name == name
  }

  lemma SamePrefix(a: seq<Scope>, b: seq<Scope>, k: int)
    requires 0 <= k < |a| && k < |b| && SoundAt(a, k) && forall j :: 0 <= j <= k ==> b[j] == a[j]
    ensures SoundAt(b, k)
  {
    forall i | 0 <= i < |b[k].outers| ensures Sound(b, k, b[k].outers[i]) { assert Sound(a, k, a[k].outers[i]); }
  }

  lemma {:induction false} NearestPrefix(funcs: seq<Scope>, n: nat, level: int, name: Name)
    requires level < n <= |funcs|
    ensures Nearest(funcs[..n], level, name) == Nearest(funcs, level, name)
    decreases level
  {
    if level >= 0 { NearestPrefix(funcs, n, level - 1, name); }
  }

  /** No entry depends on the current function's own registers. */
  lemma OwnLocals(funcs: seq<Scope>, locals: seq<Local>)
    requires AllSound(funcs) && funcs != []
    ensures AllSound(funcs[|funcs| - 1 := funcs[|funcs| - 1].(locals := locals)])
  {
    var n := |funcs| - 1;
    var funcs' := funcs[n := funcs[n].(locals := locals)];
    forall k | 0 <= k < |funcs'| ensures SoundAt(funcs', k) {
      assert SoundAt(funcs, k);
      forall i | 0 <= i < |funcs'[k].outers| ensures Sound(funcs', k, funcs'[k].outers[i]) {
        assert Sound(funcs, k, funcs[k].outers[i]);
      }
    }
  }
}
