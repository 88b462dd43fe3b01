/** The table of objects native code holds: how often each is held. */
module RefTable {
  import opened Common
  import opened Chains

  /** A node; a free one has no object and no count. */
  datatype Node<K> = Node(obj: Option<K>, refs: nat)

  function Slot<K>(hash: K -> nat, k: K, n: nat): (r: nat)
    requires n > 0
    ensures r < n
  {
    hash(k) % n
  }

  /** Node `x` is on chain `p`: a bucket, or the free list for -1. */
  ghost predicate On(buckets: seq<seq<nat>>, free: seq<nat>, p: int, x: nat) {
    if p == -1 then Has(free, x) else 0 <= p < |buckets| && Has(buckets[p], x)
  }

  /** Every node is on exactly one chain, once. */
  ghost predicate Placed(buckets: seq<seq<nat>>, free: seq<nat>, place: seq<int>) {
    && (forall x: nat :: x < |place| ==> On(buckets, free, place[x], x))
    && (forall p: int, x: nat :: On(buckets, free, p, x) ==> x < |place| && place[x] == p)
    && Apart(free) && (forall b :: 0 <= b < |buckets| ==> Apart(buckets[b]))
  }

  /** The used nodes are exactly the entries of `counts`, each in its object's bucket. */
  ghost predicate Holds<K>(hash: K -> nat, nodes: seq<Node<K>>, n: nat, place: seq<int>, counts: map<K, nat>, owner: map<K, nat>)
    requires n > 0
  {
    && |nodes| == |place| && counts.Keys == owner.Keys
    && (forall x :: 0 <= x < |nodes| && place[x] == -1 ==> nodes[x] == Node(None, 0))
    && (forall x :: 0 <= x < |nodes| && place[x] != -1 ==> Entry(hash, nodes[x], n, place[x], counts, owner, x))
    && (forall k :: k in owner ==> owner[k] < |nodes| && nodes[owner[k]].obj == Some(k))
  }

  ghost predicate Entry<K>(hash: K -> nat, node: Node<K>, n: nat, b: int, counts: map<K, nat>, owner: map<K, nat>, x: nat)
    requires n > 0
  {
    && node.obj.Some? && Slot(hash, node.obj.value, n) == b
    && node.obj.value in counts && counts[node.obj.value] == node.refs
    && node.obj.value in owner && owner[node.obj.value] == x
  }

  // ------------------------------------------------------------------- lemmas

  /** Node `x` moves to chain `to` and no other node moves. */
  lemma Replaced(buckets: seq<seq<nat>>, free: seq<nat>, place: seq<int>, buckets': seq<seq<nat>>, free': seq<nat>, x: nat, to: int)
    requires Placed(buckets, free, place) && |buckets'| == |buckets| && x < |place|
    requires forall p: int, y: nat :: On(buckets', free', p, y) <==> if y == x then p == to else On(buckets, free, p, y)
    requires Apart(free') && forall b :: 0 <= b < |buckets'| ==> Apart(buckets'[b])
    ensures Placed(buckets', free', place[x := to])
  {
    hide On, Apart;
  }

  /** The first free node moves to the front of a bucket. */
  lemma PlaceTaken(buckets: seq<seq<nat>>, free: seq<nat>, place: seq<int>, b: nat)
    requires Placed(buckets, free, place) && free != [] && b < |buckets|
    ensures free[0] < |place| && place[free[0]] == -1
    ensures Placed(buckets[b := [free[0]] + buckets[b]], free[1..], place[free[0] := b])
  {
    var x := free[0];
    assert Has(free, x);
    assert On(buckets, free, -1, x);
    assert free[1..] == Dropped(free, 0);
    hide Has, Dropped;
    assert !On(buckets, free, b, x);
    ConsApart(buckets[b], x);
    DroppedHas(free, 0, x);
    var buckets' := buckets[b := [x] + buckets[b]];
    forall p: int, y: nat ensures On(buckets', free[1..], p, y) <==> if y == x then p == b else On(buckets, free, p, y) {
      DroppedHas(free, 0, y);
      ConsHas(buckets[b], x, y);
      assert y == x && p != -1 ==> !On(buckets, free, p, x);
    }
    Replaced(buckets, free, place, buckets', free[1..], x, b);
  }

  /** A node of a bucket moves to the front of the free list. */
  lemma PlaceFreed(buckets: seq<seq<nat>>, free: seq<nat>, place: seq<int>, b: nat, k: nat)
    requires Placed(buckets, free, place) && b < |buckets| && k < |buckets[b]|
    ensures buckets[b][k] < |place| && place[buckets[b][k]] == b
    ensures Placed(buckets[b := Dropped(buckets[b], k)], [buckets[b][k]] + free, place[buckets[b][k] := -1])
  {
    var x := buckets[b][k];
    assert Has(buckets[b], x);
    assert On(buckets, free, b, x);
    hide Has, Dropped;
    assert !On(buckets, free, -1, x);
    ConsApart(free, x);
    DroppedHas(buckets[b], k, x);
    var buckets' := buckets[b := Dropped(buckets[b], k)];
    forall p: int, y: nat ensures On(buckets', [x] + free, p, y) <==> if y == x then p == -1 else On(buckets, free, p, y) {
      DroppedHas(buckets[b], k, y);
      ConsHas(free, x, y);
      assert y == x && p != b ==> !On(buckets, free, p, x);
    }
    Replaced(buckets, free, place, buckets', [x] + free, x, -1);
  }

  lemma NoneUsed(size: nat, free: seq<nat>)
    requires free == seq(size, i => i)
    ensures Placed(seq(size, _ => []), free, seq(size, _ => -1))
  {
    var place: seq<int> := seq(size, _ => -1);
    var buckets: seq<seq<nat>> := seq(size, _ => []);
    forall x: nat | x < |place| ensures On(buckets, free, place[x], x) { assert free[x] == x; }
    forall p: int, x: nat | On(buckets, free, p, x) ensures x < |place| && place[x] == p { }
  }

  class RefTable<K(==)> {
    const hash: K -> nat
    var nodes: seq<Node<K>>
    var buckets: seq<seq<nat>>
    var free: seq<nat>
    var slotused: nat
    ghost var place: seq<int>
    ghost var counts: map<K, nat>
    ghost var owner: map<K, nat>

    /** Used nodes and free nodes together are the slots. */
    ghost predicate Shaped()
      reads this
    {
      && |buckets| == |nodes| > 0
      && Placed(buckets, free, place)
      && Holds(hash, nodes, |buckets|, place, counts, owner)
      && slotused == |counts| && slotused + |free| == |nodes|
    }

    ghost predicate Valid()
      reads this
    {
      Shaped() && forall k :: k in counts ==> counts[k] > 0
    }

    constructor (hash: K -> nat)
      ensures Valid() && counts == map[] && this.hash == hash
    {
      this.hash := hash;
      new;
      AllocNodes(4);
    }

    /** A table of `size` free nodes. */
    method AllocNodes(size: nat)
      requires size > 0
      modifies this
      ensures Shaped() && counts == map[] && |nodes| == size
    {
      nodes := seq(size, _ => Node(None, 0));
      buckets := seq(size, _ => []);
      free := seq(size, i => i);
      slotused := 0;
      place := seq(size, _ => -1);
      counts, owner := map[], map[];
      NoneUsed(size, free);
    }

    /** Where in its bucket the object sits, if it does. */
    method Find(k: K) returns (b: nat, i: int)
      requires Shaped()
      ensures b == Slot(hash, k, |buckets|)
      ensures i == -1 <==> k !in counts
      ensures i != -1 ==> 0 <= i < |buckets[b]| && k in owner && buckets[b][i] == owner[k] < |nodes|
      ensures i != -1 ==> nodes[owner[k]] == Node(Some(k), counts[k])
    {
      b := Slot(hash, k, |buckets|);
      var chain := buckets[b];
      i := 0;
      while i < |chain|
        invariant 0 <= i <= |chain|
        invariant forall j :: 0 <= j < i ==> chain[j] < |nodes| && nodes[chain[j]].obj != Some(k)
      {
        InBucket(hash, nodes, buckets, free, place, counts, owner, b, i);
        if nodes[chain[i]].obj == Some(k) { return; }
        i := i + 1;
      }
      i := -1;
      NotIn(hash, nodes, buckets, free, place, counts, owner, k);
    }

    /** Takes a free node for an object not in the table; its count starts at zero. */
    method Add(b: nat, k: K) returns (x: nat)
      requires Shaped() && b == Slot(hash, k, |buckets|) && k !in counts && free != []
      modifies this`nodes, this`buckets, this`free, this`slotused, this`place, this`counts, this`owner
      ensures Shaped() && counts == old(counts)[k := 0] && |nodes| == |old(nodes)|
      ensures k in owner && x == owner[k] < |nodes| && nodes[x] == Node(Some(k), 0)
    {
      hide Placed, Holds;
      HoldsSize(hash, nodes, |buckets|, place, counts, owner);
      PlaceTaken(buckets, free, place, b);
      x := free[0];
      AddHolds(hash, nodes, |buckets|, place, counts, owner, x, b, k);
      OneMoreKey(counts, k, 0);
      nodes := nodes[x := nodes[x].(obj := Some(k))];
      buckets := buckets[b := [x] + buckets[b]];
      free := free[1..];
      slotused := slotused + 1;
      place := place[x := b];
      counts := counts[k := 0];
      owner := owner[k := x];
    }

    /** Sets the count of an object in the table. */
    method SetRefs(k: K, x: nat, refs: nat)
      requires Shaped() && k in owner && x == owner[k] < |nodes|
      modifies this`nodes, this`counts
      ensures Shaped() && counts == old(counts)[k := refs] && |nodes| == |old(nodes)|
    {
      hide Placed, Holds;
      CountHolds(hash, nodes, |buckets|, place, counts, owner, k, refs);
      nodes := nodes[x := nodes[x].(refs := refs)];
      counts := counts[k := refs];
    }

    /** One more hold on the object. */
    method AddRef(k: K)
      requires Valid()
      modifies this
      ensures Valid() && counts == old(counts)[k := if k in old(counts) then old(counts)[k] + 1 else 1]
    {
      hide Placed, Holds;
      var b, i := Find(k);
      if i == -1 {
        if slotused == |nodes| {
          Resize(|nodes| * 2);
          b := Slot(hash, k, |buckets|);
        }
        var x := Add(b, k);
        SetRefs(k, x, 1);
      } else {
        SetRefs(k, buckets[b][i], nodes[buckets[b][i]].refs + 1);
      }
    }

    method GetRefCount(k: K) returns (n: nat)
      requires Valid()
      ensures n == if k in counts then counts[k] else 0
    {
      hide Placed, Holds;
      var b, i := Find(k);
      n := if i == -1 then 0 else nodes[buckets[b][i]].refs;
    }

    /** One hold less; true exactly when it was the last one, and then the node is free again. */
    method Release(k: K) returns (last: bool)
      requires Valid()
      modifies this
      ensures Valid() && (last <==> k in old(counts) && old(counts)[k] == 1)
      ensures counts == if k !in old(counts) then old(counts) else if last then old(counts) - {k} else old(counts)[k := old(counts)[k] - 1]
    {
      hide Placed, Holds;
      var b, i := Find(k);
      if i == -1 { return false; }
      var x := buckets[b][i];
      if nodes[x].refs - 1 == 0 {
        FreeNode(b, i, k);
        return true;
      }
      SetRefs(k, x, nodes[x].refs - 1);
      return false;
    }

    method FreeNode(b: nat, i: nat, k: K)
      requires Shaped() && b < |buckets| && i < |buckets[b]| && k in owner && buckets[b][i] == owner[k] < |nodes|
      modifies this
      ensures Shaped() && counts == old(counts) - {k}
    {
      hide Placed, Holds;
      PlaceFreed(buckets, free, place, b, i);
      DropHolds(hash, nodes, |buckets|, place, counts, owner, k);
      var x := buckets[b][i];
      buckets := buckets[b := Dropped(buckets[b], i)];
      free := [x] + free;
      slotused := slotused - 1;
      nodes := nodes[x := Node(None, 0)];
      place := place[x := -1];
      counts := counts - {k};
      owner := owner - {k};
    }

    method AddBack(k: K, refs: nat)
      requires Shaped() && k !in counts && slotused < |nodes|
      modifies this
      ensures Shaped() && counts == old(counts)[k := refs] && |nodes| == |old(nodes)|
    {
      hide Placed, Holds, Slot;
      var x := Add(Slot(hash, k, |buckets|), k);
      SetRefs(k, x, refs);
    }

    /** A larger table with the same counts. */
    method Resize(size: nat)
      requires Shaped() && size > |nodes|
      modifies this
      ensures Shaped() && counts == old(counts) && |nodes| == size
    {
      hide Placed, Holds, Copied;
      var was := nodes;
      ghost var counts0, place0, n0 := counts, place, |buckets|;
      ghost var owner0 := owner;
      AllocNodes(size);
      CopyNone(hash, was, n0, place0, counts0, owner0);
      for i := 0 to |was|
        invariant Shaped() && |nodes| == size && |counts| <= i && Copied(counts0, owner0, counts, i)
      {
        CopyOne(hash, was, n0, place0, counts0, owner0, counts, i);
        if was[i].obj.Some? {
          var k := was[i].obj.value;
          OneMoreKey(counts, k, was[i].refs);
          AddBack(k, was[i].refs);
        }
      }
      CopyAll(hash, was, n0, place0, counts0, owner0, counts);
    }
  }

  /** The counts of the objects in the first `i` old nodes have been copied. */
  ghost predicate Copied<K>(counts0: map<K, nat>, owner0: map<K, nat>, counts: map<K, nat>, i: nat) {
    && counts0.Keys == owner0.Keys
    && (forall k :: k in counts ==> k in counts0 && counts[k] == counts0[k] && owner0[k] < i)
    && (forall k :: k in counts0 && owner0[k] < i ==> k in counts)
  }

  lemma CopyNone<K>(hash: K -> nat, was: seq<Node<K>>, n: nat, place: seq<int>, counts0: map<K, nat>, owner0: map<K, nat>)
    requires n > 0 && Holds(hash, was, n, place, counts0, owner0)
    ensures Copied(counts0, owner0, map[], 0)
  {
  }

  lemma CopyOne<K>(hash: K -> nat, was: seq<Node<K>>, n: nat, place: seq<int>, counts0: map<K, nat>,
        owner0: map<K, nat>, counts: map<K, nat>, i: nat)
    requires n > 0 && Holds(hash, was, n, place, counts0, owner0) && i < |was| && Copied(counts0, owner0, counts, i)
    ensures was[i].obj.None? ==> Copied(counts0, owner0, counts, i + 1)
    ensures was[i].obj.Some? ==> var k := was[i].obj.value;
                                 && k !in counts && Copied(counts0, owner0, counts[k := was[i].refs], i + 1)
  {
    assert was[i].obj.Some? ==> place[i] != -1 && Entry(hash, was[i], n, place[i], counts0, owner0, i);
    forall k | k in counts0 && owner0[k] == i ensures was[i].obj == Some(k) { assert was[owner0[k]].obj == Some(k); }
  }

  lemma CopyAll<K>(hash: K -> nat, was: seq<Node<K>>, n: nat, place: seq<int>, counts0: map<K, nat>,
        owner0: map<K, nat>, counts: map<K, nat>)
    requires n > 0 && Holds(hash, was, n, place, counts0, owner0) && Copied(counts0, owner0, counts, |was|)
    ensures counts == counts0
  {
  }

  lemma HoldsSize<K>(hash: K -> nat, nodes: seq<Node<K>>, n: nat, place: seq<int>, counts: map<K, nat>, owner: map<K, nat>)
    requires n > 0 && Holds(hash, nodes, n, place, counts, owner)
    ensures |nodes| == |place|
  {
  }

  lemma AddHolds<K>(hash: K -> nat, nodes: seq<Node<K>>, n: nat, place: seq<int>, counts: map<K, nat>,
        owner: map<K, nat>, x: nat, b: nat, k: K)
    requires n > 0 && Holds(hash, nodes, n, place, counts, owner) && x < |nodes| && place[x] == -1 && b == Slot(hash, k, n) && k !in counts
    ensures nodes[x].refs == 0
    ensures Holds(hash, nodes[x := nodes[x].(obj := Some(k))], n, place[x := b], counts[k := 0], owner[k := x])
  {
    var nodes', place', counts', owner' := nodes[x := nodes[x].(obj := Some(k))], place[x := b], counts[k := 0], owner[k := x];
    EntryNew(hash, nodes'[x], n, b, counts, owner, x, k);
    hide Entry, Slot;
    forall y | 0 <= y < |nodes'| && place'[y] != -1 ensures Entry(hash, nodes'[y], n, place'[y], counts', owner', y) {
      if y != x { EntryKept(hash, nodes[y], n, place[y], counts, owner, y, k, x); }
    }
    forall j | j in owner' ensures owner'[j] < |nodes'| && nodes'[owner'[j]].obj == Some(j) {
      if j != k { assert nodes[owner[j]].obj == Some(j) && owner[j] != x; }
    }
    assert counts'.Keys == owner'.Keys by {
      OneMoreKey(counts, k, 0);
      OneMoreKey(owner, k, x);
    }
  }

  lemma EntryNew<K>(hash: K -> nat, node: Node<K>, n: nat, b: int, counts: map<K, nat>, owner: map<K, nat>, x: nat, k: K)
    requires n > 0 && node == Node(Some(k), 0) && b == Slot(hash, k, n)
    ensures Entry(hash, node, n, b, counts[k := 0], owner[k := x], x)
  {
  }

  lemma EntryKept<K>(hash: K -> nat, node: Node<K>, n: nat, b: int, counts: map<K, nat>, owner: map<K, nat>, y: nat, k: K, x: nat)
    requires n > 0 && Entry(hash, node, n, b, counts, owner, y) && k !in counts
    ensures Entry(hash, node, n, b, counts[k := 0], owner[k := x], y)
  {
  }

  lemma CountHolds<K>(hash: K -> nat, nodes: seq<Node<K>>, n: nat, place: seq<int>, counts: map<K, nat>,
        owner: map<K, nat>, k: K, refs: nat)
    requires n > 0 && Holds(hash, nodes, n, place, counts, owner) && k in owner
    ensures owner[k] < |nodes| && Holds(hash, nodes[owner[k] := nodes[owner[k]].(refs := refs)], n, place, counts[k := refs], owner)
    ensures |counts[k := refs]| == |counts|
  {
    var x := owner[k];
    var nodes', counts' := nodes[x := nodes[x].(refs := refs)], counts[k := refs];
    assert nodes[x].obj == Some(k) && place[x] != -1;
    forall y | 0 <= y < |nodes'| && place[y] != -1 ensures Entry(hash, nodes'[y], n, place[y], counts', owner, y) {
      assert Entry(hash, nodes[y], n, place[y], counts, owner, y);
    }
    assert counts'.Keys == counts.Keys;
    assert |counts'.Keys| == |counts.Keys|;
  }

  lemma DropHolds<K>(hash: K -> nat, nodes: seq<Node<K>>, n: nat, place: seq<int>, counts: map<K, nat>, owner: map<K, nat>, k: K)
    requires n > 0 && Holds(hash, nodes, n, place, counts, owner) && k in owner
    ensures owner[k] < |nodes| && Holds(hash, nodes[owner[k] := Node(None, 0)], n, place[owner[k] := -1], counts - {k}, owner - {k})
    ensures |counts - {k}| == |counts| - 1
  {
    var x := owner[k];
    var nodes', place' := nodes[x := Node(None, 0)], place[x := -1];
    forall y | 0 <= y < |nodes'| && place'[y] != -1 ensures Entry(hash, nodes'[y], n, place'[y], counts - {k}, owner - {k}, y) {
      assert Entry(hash, nodes[y], n, place[y], counts, owner, y);
    }
    assert (counts - {k}).Keys == counts.Keys - {k} && (owner - {k}).Keys == owner.Keys - {k};
  }

  lemma InBucket<K>(hash: K -> nat, nodes: seq<Node<K>>, buckets: seq<seq<nat>>, free: seq<nat>, place: seq<int>,
        counts: map<K, nat>, owner: map<K, nat>, b: nat, i: nat)
    requires Placed(buckets, free, place) && |buckets| > 0 && Holds(hash, nodes, |buckets|, place, counts, owner)
    requires b < |buckets| && i < |buckets[b]|
    ensures buckets[b][i] < |nodes| && Entry(hash, nodes[buckets[b][i]], |buckets|, b, counts, owner, buckets[b][i])
  {
    var x := buckets[b][i];
    assert On(buckets, free, b, x);
    assert Entry(hash, nodes[x], |buckets|, place[x], counts, owner, x);
  }

  lemma OwnerIn<K>(hash: K -> nat, nodes: seq<Node<K>>, buckets: seq<seq<nat>>, free: seq<nat>, place: seq<int>,
        counts: map<K, nat>, owner: map<K, nat>, k: K)
    requires Placed(buckets, free, place) && |buckets| > 0 && Holds(hash, nodes, |buckets|, place, counts, owner) && k in counts
    ensures Has(buckets[Slot(hash, k, |buckets|)], owner[k]) && owner[k] < |nodes| && nodes[owner[k]] == Node(Some(k), counts[k])
  {
    var x := owner[k];
    assert nodes[x].obj == Some(k) && place[x] != -1;
    assert On(buckets, free, place[x], x) && Entry(hash, nodes[x], |buckets|, place[x], counts, owner, x);
  }

  lemma NotIn<K>(hash: K -> nat, nodes: seq<Node<K>>, buckets: seq<seq<nat>>, free: seq<nat>, place: seq<int>,
        counts: map<K, nat>, owner: map<K, nat>, k: K)
    requires Placed(buckets, free, place) && |buckets| > 0 && Holds(hash, nodes, |buckets|, place, counts, owner)
    requires
      var chain := buckets[Slot(hash, k, |buckets|)];
      forall j :: 0 <= j < |chain| ==> chain[j] < |nodes| && nodes[chain[j]].obj != Some(k)
    ensures k !in counts
  {
    if k in counts { OwnerIn(hash, nodes, buckets, free, place, counts, owner, k); }
  }
}
