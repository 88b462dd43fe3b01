/** Delegation: a table may name another table to look in.  The links never form
    a cycle, so a lookup along them ends. */
module Delegation {
  import opened Common

  /** A table's own slots and its delegate, -1 for none. */
  datatype Table<!K, V> = Table(slots: map<K, V>, delegate: int)

  // ---------------------------------------------------------------- acyclicity

  ghost predicate InRange<K, V>(ts: seq<Table<K, V>>) {
    forall x :: 0 <= x < |ts| ==> -1 <= ts[x].delegate < |ts|
  }

  /** Every delegate has a smaller rank. */
  ghost predicate Ranked<K, V>(ts: seq<Table<K, V>>, rank: seq<nat>) {
    && |rank| == |ts| && InRange(ts)
    && forall x :: 0 <= x < |ts| && ts[x].delegate >= 0 ==> rank[ts[x].delegate] < rank[x]
  }

  ghost predicate Acyclic<K, V>(ts: seq<Table<K, V>>) {
    exists rank :: Ranked(ts, rank)
  }

  /** Following delegates from `x` comes to `y`. */
  ghost predicate Leads<K, V>(ts: seq<Table<K, V>>, rank: seq<nat>, x: int, y: int)
    requires Ranked(ts, rank) && -1 <= x < |ts|
    decreases if x < 0 then 0 else rank[x] + 1
  {
    x >= 0 && (x == y || Leads(ts, rank, ts[x].delegate, y))
  }

  /** The ranks after `x` is given delegate `mt`: all that leads to `x` moves up. */
  ghost function Raised<K, V>(ts: seq<Table<K, V>>, rank: seq<nat>, x: nat, mt: int): (r: seq<nat>)
    requires Ranked(ts, rank) && x < |ts| && -1 <= mt < |ts|
  {
    seq(|ts|, y requires 0 <= y < |ts| => if Leads(ts, rank, y, x) then rank[y] + (if mt >= 0 then rank[mt] + 1 else 0) else rank[y])
  }

  /** A delegate that does not lead back keeps the graph acyclic. */
  lemma AssignKeeps<K, V>(ts: seq<Table<K, V>>, rank: seq<nat>, x: nat, mt: int)
    requires Ranked(ts, rank) && x < |ts| && -1 <= mt < |ts| && !Leads(ts, rank, mt, x)
    ensures Ranked(ts[x := ts[x].(delegate := mt)], Raised(ts, rank, x, mt))
  {
    var ts' := ts[x := ts[x].(delegate := mt)];
    var r := Raised(ts, rank, x, mt);
    forall y | 0 <= y < |ts'| && ts'[y].delegate >= 0 ensures r[ts'[y].delegate] < r[y] {
      if y != x { assert Leads(ts, rank, y, x) <==> Leads(ts, rank, ts[y].delegate, x); }
    }
  }

  /** A delegate that leads back closes a cycle: no ranks fit any more. */
  lemma AssignCloses<K, V>(ts: seq<Table<K, V>>, rank: seq<nat>, x: nat, mt: int)
    requires Ranked(ts, rank) && x < |ts| && -1 <= mt < |ts| && Leads(ts, rank, mt, x)
    ensures !Acyclic(ts[x := ts[x].(delegate := mt)])
  {
    var ts' := ts[x := ts[x].(delegate := mt)];
    assert ts'[x].delegate == mt;
    forall r | Ranked(ts', r) ensures false { Descends(ts, rank, ts', r, x, mt); }
  }

  lemma {:induction false} Descends<K, V>(ts: seq<Table<K, V>>, rank: seq<nat>, ts': seq<Table<K, V>>, r: seq<nat>, x: nat, y: int)
    requires Ranked(ts, rank) && x < |ts| == |ts'| && -1 <= y < |ts| && Leads(ts, rank, y, x)
    requires Ranked(ts', r) && forall z :: 0 <= z < |ts| && z != x ==> ts'[z] == ts[z]
    ensures r[x] <= r[y]
    decreases rank[y]
  {
    if y != x {
      Descends(ts, rank, ts', r, x, ts[y].delegate);
    }
  }

  // -------------------------------------------------------------------- lookup

  /** The tables a lookup in `x` tries, in order. */
  ghost function Chain<K, V>(ts: seq<Table<K, V>>, rank: seq<nat>, x: int): (c: seq<int>)
    requires Ranked(ts, rank) && -1 <= x < |ts|
    ensures forall k :: 0 <= k < |c| ==> 0 <= c[k] < |ts|
    decreases if x < 0 then 0 else rank[x] + 1
  {
    if x < 0 then [] else [x] + Chain(ts, rank, ts[x].delegate)
  }

  /** `r` is the slot of the first table of the chain that has the key, else the default delegate's. */
  ghost predicate FirstMatch<K, V(!new)>(ts: seq<Table<K, V>>, chain: seq<int>, base: map<K, V>, key: K, r: Option<V>)
    requires forall k :: 0 <= k < |chain| ==> 0 <= chain[k] < |ts|
  {
    if exists k :: 0 <= k < |chain| && key in ts[chain[k]].slots then
      exists k :: 0 <= k < |chain| && key in ts[chain[k]].slots && r == Some(ts[chain[k]].slots[key])
                  && forall j :: 0 <= j < k ==> key !in ts[chain[j]].slots
    else r == if key in base then Some(base[key]) else None
  }

  class Tables<K(==), V(!new)> {
    var ts: seq<Table<K, V>>
    ghost var rank: seq<nat>

    ghost predicate Valid()
      reads this
    {
      Ranked(ts, rank)
    }

    constructor ()
      ensures Valid() && ts == []
    {
      ts, rank := [], [];
    }

    method Create() returns (x: nat)
      requires Valid()
      modifies this
      ensures Valid() && x == |old(ts)| && ts == old(ts) + [Table(map[], -1)]
    {
      x := |ts|;
      ts := ts + [Table(map[], -1)];
      rank := rank + [0];
    }

    /** Refused exactly when it would close a cycle; otherwise only this one link changes. */
    method SetDelegate(x: nat, mt: int) returns (ok: bool)
      requires Valid() && x < |ts| && -1 <= mt < |ts|
      modifies this
      ensures Valid()
      ensures ok <==> Acyclic(old(ts)[x := old(ts)[x].(delegate := mt)])
      ensures ts == if ok then old(ts)[x := old(ts)[x].(delegate := mt)] else old(ts)
    {
      var temp := mt;
      if temp == x {
        AssignCloses(ts, rank, x, mt);
        return false;
      }
      while temp >= 0
        invariant -1 <= temp < |ts| && temp != x
        invariant Leads(ts, rank, mt, x) <==> Leads(ts, rank, temp, x)
        decreases if temp < 0 then 0 else rank[temp] + 1
      {
        if ts[temp].delegate == x {
          AssignCloses(ts, rank, x, mt);
          return false;
        }
        temp := ts[temp].delegate;
      }
      AssignKeeps(ts, rank, x, mt);
      rank := Raised(ts, rank, x, mt);
      ts := ts[x := ts[x].(delegate := mt)];
      ok := true;
    }

    /** Looks a key up without metamethods: the table itself, then each delegate in turn,
        then the default delegate of tables. */
    method Get(x: nat, base: map<K, V>, key: K) returns (r: Option<V>)
      requires Valid() && x < |ts|
      ensures FirstMatch(ts, Chain(ts, rank, x), base, key, r)
      decreases rank[x]
    {
      ghost var chain := Chain(ts, rank, x);
      if key in ts[x].slots {
        assert chain[0] == x;
        return Some(ts[x].slots[key]);
      }
      if ts[x].delegate >= 0 {
        r := Get(ts[x].delegate, base, key);
        Deeper(ts, Chain(ts, rank, ts[x].delegate), x, base, key, r);
        if r.Some? { return; }
        assert key !in base;
      } else {
        assert Chain(ts, rank, ts[x].delegate) == [];
        assert chain == [x];
      }
      r := if key in base then Some(base[key]) else None;
    }
  }

  /** A match further along is a match from one table before that lacks the key. */
  lemma Deeper<K, V(!new)>(ts: seq<Table<K, V>>, chain: seq<int>, x: int, base: map<K, V>, key: K, r: Option<V>)
    requires (forall k :: 0 <= k < |chain| ==> 0 <= chain[k] < |ts|) && 0 <= x < |ts| && key !in ts[x].slots
    requires FirstMatch(ts, chain, base, key, r)
    ensures FirstMatch(ts, [x] + chain, base, key, r)
  {
    var c := [x] + chain;
    assert forall k :: 1 <= k < |c| ==> c[k] == chain[k - 1];
    if exists k :: 0 <= k < |chain| && key in ts[chain[k]].slots {
      var k :| 0 <= k < |chain| && key in ts[chain[k]].slots && r == Some(ts[chain[k]].slots[key])
               && forall j :: 0 <= j < k ==> key !in ts[chain[j]].slots;
      assert c[k + 1] == chain[k];
    }
  }
}
