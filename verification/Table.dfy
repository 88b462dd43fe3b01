/** The hash table behind every script table: a chained scatter table with
    Brent's variation, in which collisions are stored in the free nodes of the
    same array, deletion leaves a dead node linked inside its chain, and the
    table rehashes itself.  The class is proved to behave as a finite map. */
module Table {
  import opened Common

  const MIN_POWER2 := 4

  /** A node; `next` is an index into the node array, or -1 for no successor. */
  datatype Node<K, V> = Node(key: Option<K>, val: V, next: int) {
    predicate Live() { key.Some? }
    predicate Free() { key.None? && next == -1 }
  }

  // ----- the node array as a value -----

  /** The `next` links split the array into disjoint paths: `root[i]` names the
      path of node i and `pos[i]` counts the nodes after it on that path. */
  ghost predicate Paths<K, V>(ns: seq<Node<K, V>>, root: seq<int>, pos: seq<int>) {
    && |root| == |pos| == |ns|
    && (forall i :: 0 <= i < |ns| ==> Linked(ns, root, pos, i))
    && (forall i, j :: 0 <= i < |ns| && 0 <= j < |ns| && root[i] == root[j] && pos[i] == pos[j] ==> i == j)
  }

  ghost predicate Linked<K, V>(ns: seq<Node<K, V>>, root: seq<int>, pos: seq<int>, i: int)
    requires |root| == |pos| == |ns| && 0 <= i < |ns|
  {
    var j := ns[i].next;
    if j == -1 then pos[i] == 0
    else 0 <= j < |ns| && pos[i] > 0 && root[j] == root[i] && pos[j] == pos[i] - 1
  }

  /** `loc` maps every live key to the one node that holds it. */
  ghost predicate Located<K, V>(ns: seq<Node<K, V>>, loc: map<K, int>) {
    && (forall k :: k in loc ==> 0 <= loc[k] < |ns| && ns[loc[k]].key == Some(k))
    && (forall i :: 0 <= i < |ns| && ns[i].Live() ==> ns[i].key.value in loc && loc[ns[i].key.value] == i)
  }

  /** Every live key lies on the path that starts at its main slot, and a slot
      holding a foreign key is the main slot of no live key. */
  ghost predicate Placed<K>(home: K -> int, size: int, root: seq<int>, pos: seq<int>, loc: map<K, int>)
    requires |root| == |pos| == size
  {
    && (forall k :: k in loc ==> 0 <= loc[k] < size && 0 <= home(k) < size)
    && (forall k :: k in loc ==> root[home(k)] == root[loc[k]] && pos[home(k)] >= pos[loc[k]])
    && (forall k, j :: k in loc && j in loc && home(j) == loc[k] ==> home(k) == loc[k])
  }

  /** The structural invariant; every linked node lies strictly above `free`. */
  ghost predicate Inv<K, V>(home: K -> int, ns: seq<Node<K, V>>, free: int, root: seq<int>, pos: seq<int>, loc: map<K, int>) {
    && Paths(ns, root, pos)
    && Located(ns, loc)
    && Placed(home, |ns|, root, pos, loc)
    && LinksAbove(ns, free)
  }

  ghost predicate LinksAbove<K, V>(ns: seq<Node<K, V>>, free: int) {
    forall i :: 0 <= i < |ns| && ns[i].next != -1 ==> free < ns[i].next
  }

  // ----- counting -----

  /** The locations of the keys left when the last node is dropped. */
  lemma DropLast<K, V>(ns: seq<Node<K, V>>, loc: map<K, int>) returns (loc': map<K, int>)
    requires Located(ns, loc) && |ns| > 0
    ensures Located(ns[..|ns| - 1], loc')
    ensures |loc| == |loc'| + (if ns[|ns| - 1].Live() then 1 else 0)
  {
    var n := |ns| - 1;
    loc' := if ns[n].Live() then loc - {ns[n].key.value} else loc;
    if ns[n].Live() { assert loc.Keys == loc'.Keys + {ns[n].key.value}; }
    forall k | k in loc' ensures 0 <= loc'[k] < n && ns[..n][loc'[k]].key == Some(k) { }
    forall i | 0 <= i < n && ns[i].Live() ensures ns[i].key.value in loc' && loc'[ns[i].key.value] == i { }
  }

  /** Distinct keys sit in distinct nodes, so there are at most as many as nodes,
      and exactly as many when every node is live. */
  lemma {:induction false} KeyCount<K, V>(ns: seq<Node<K, V>>, loc: map<K, int>)
    requires Located(ns, loc)
    ensures |loc| <= |ns|
    ensures |loc| == |ns| <==> forall i :: 0 <= i < |ns| ==> ns[i].Live()
    decreases |ns|
  {
    if |ns| == 0 {
      assert loc == map[];
    } else {
      var last := |ns| - 1;
      var loc' := DropLast(ns, loc);
      KeyCount(ns[..last], loc');
      assert forall i :: 0 <= i < last ==> ns[..last][i] == ns[i];
    }
  }

  // ----- the three ways to place a new key -----

  /** What storing a new key with main slot m in node mp changes: mp holds the key,
      every other entry keeps its value, and of the nodes up to `free` only mp
      stops being free. */
  ghost predicate Stores<K, V>(ns: seq<Node<K, V>>, free: int, loc: map<K, int>, ns': seq<Node<K, V>>,
        loc': map<K, int>, key: K, m: int, mp: int)
    requires Located(ns, loc) && 0 <= free < |ns| && 0 <= m < |ns|
  {
    && |ns'| == |ns| && Located(ns', loc') && key !in loc
    && loc'.Keys == loc.Keys + {key} && loc'[key] == mp && (mp == m || mp == free)
    && (forall k :: k in loc ==> ns'[loc'[k]].val == ns[loc[k]].val)
    && (forall i :: 0 <= i < free ==> ns'[i].Free() == (ns[i].Free() && i != mp))
    && (ns'[free].Free() == (!ns[m].Live() && m != free))
    && (ns'[free].Free() ==> LinksAbove(ns, free) ==> LinksAbove(ns', free))
    && (Dense(ns, free) ==> Dense(ns', free))
  }

  /** The shape of a table that has seen no deletion since its array was allocated. */
  ghost predicate Dense<K, V>(ns: seq<Node<K, V>>, free: int) {
    && (forall i :: 0 <= i < |ns| && i > free ==> ns[i].Live())
    && (forall i :: 0 <= i < |ns| && ns[i].next != -1 ==> ns[i].Live())
  }

  lemma StoresAtMain<K, V>(ns: seq<Node<K, V>>, free: int, loc: map<K, int>, k: K, m: int)
    requires Located(ns, loc) && k !in loc && 0 <= free < |ns| && ns[free].Free() && 0 <= m < |ns| && !ns[m].Live()
    ensures Stores(ns, free, loc, ns[m := ns[m].(key := Some(k))], loc[k := m], k, m, m)
  {
  }

  lemma StoresInChain<K, V>(ns: seq<Node<K, V>>, free: int, loc: map<K, int>, k: K, m: int)
    requires Located(ns, loc) && k !in loc && 0 <= free < |ns| && ns[free].Free() && 0 <= m < |ns| && ns[m].Live()
    ensures Stores(ns, free, loc, ns[free := ns[free].(key := Some(k), next := ns[m].next)][m := ns[m].(next := free)],
                   loc[k := free], k, m, free)
  {
  }

  lemma StoresByEviction<K, V>(ns: seq<Node<K, V>>, free: int, loc: map<K, int>, k: K, m: int, prev: int, nm: Node<K, V>)
    requires Located(ns, loc) && k !in loc && 0 <= free < |ns| && ns[free].Free() && 0 <= m < |ns| && ns[m].Live()
    requires 0 <= prev < |ns| && prev != m && prev != free && ns[prev].next == m && nm.key == Some(k) && nm.next == -1
    ensures Stores(ns, free, loc, ns[prev := ns[prev].(next := free)][free := ns[m]][m := nm],
                   loc[ns[m].key.value := free][k := m], k, m, m)
  {
    EvictedLocated(ns, free, loc, k, m, prev, nm);
  }

  lemma SameLinks<K, V>(ns: seq<Node<K, V>>, ns': seq<Node<K, V>>, free: int, root: seq<int>, pos: seq<int>)
    requires Paths(ns, root, pos) && LinksAbove(ns, free)
    requires |ns'| == |ns| && forall i :: 0 <= i < |ns| ==> ns'[i].next == ns[i].next
    ensures Paths(ns', root, pos) && LinksAbove(ns', free)
  {
    forall i | 0 <= i < |ns| ensures Linked(ns', root, pos, i) { assert Linked(ns, root, pos, i); }
  }

  lemma PlaceAtMain<K, V>(home: K -> int, ns: seq<Node<K, V>>, free: int, root: seq<int>, pos: seq<int>, loc: map<K, int>, k: K, m: int)
    requires Inv(home, ns, free, root, pos, loc) && k !in loc && m == home(k)
    requires 0 <= m < |ns| && !ns[m].Live()
    ensures Inv(home, ns[m := ns[m].(key := Some(k))], free, root, pos, loc[k := m])
  {
    SameLinks(ns, ns[m := ns[m].(key := Some(k))], free, root, pos);
  }

  ghost function ShiftedPos(root: seq<int>, pos: seq<int>, m: int): (r: seq<int>)
    requires |root| == |pos| && 0 <= m < |pos|
  {
    seq(|pos|, i requires 0 <= i < |pos| => if root[i] == root[m] && pos[i] >= pos[m] then pos[i] + 1 else pos[i])
  }

  /** A free node is the target of no link, and the path of no other node runs through it. */
  lemma FreeIsAlone<K, V>(ns: seq<Node<K, V>>, free: int, root: seq<int>, pos: seq<int>, i: int)
    requires Paths(ns, root, pos) && 0 <= free < |ns| && ns[free].Free()
    requires LinksAbove(ns, free)
    requires 0 <= i < |ns| && root[i] == root[free]
    ensures i == free
    decreases pos[i]
  {
    assert Linked(ns, root, pos, i);
    assert Linked(ns, root, pos, free);
    if pos[i] > 0 { FreeIsAlone(ns, free, root, pos, ns[i].next); }
  }

  lemma SplicedPaths<K, V>(ns: seq<Node<K, V>>, free: int, root: seq<int>, pos: seq<int>, m: int, k: K)
    requires Paths(ns, root, pos) && 0 <= free < |ns| && ns[free].Free() && 0 <= m < |ns| && m != free
    requires LinksAbove(ns, free)
    ensures Paths(ns[free := ns[free].(key := Some(k), next := ns[m].next)][m := ns[m].(next := free)],
                  root[free := root[m]], ShiftedPos(root, pos, m)[free := pos[m]])
  {
    var root', pos' := root[free := root[m]], ShiftedPos(root, pos, m)[free := pos[m]];
    var ns' := ns[free := ns[free].(key := Some(k), next := ns[m].next)][m := ns[m].(next := free)];
    forall i | 0 <= i < |ns| ensures Linked(ns', root', pos', i) {
      assert Linked(ns, root, pos, i);
      assert Linked(ns, root, pos, m);
    }
  }

  lemma SplicedPlaced<K>(home: K -> int, size: int, free: int, root: seq<int>, pos: seq<int>, loc: map<K, int>, k: K)
    requires |root| == |pos| == size && Placed(home, size, root, pos, loc)
    requires k !in loc && 0 <= free < size && 0 <= home(k) < size && home(k) != free
    requires forall j :: j in loc ==> home(j) != free && loc[j] != free
    requires forall j :: j in loc && loc[j] == home(k) ==> home(j) == home(k)
    ensures Placed(home, size, root[free := root[home(k)]], ShiftedPos(root, pos, home(k))[free := pos[home(k)]], loc[k := free])
  {
  }

  /** The new key goes into the free node, linked right after its main slot. */
  lemma PlaceInChain<K, V>(home: K -> int, ns: seq<Node<K, V>>, free: int, root: seq<int>, pos: seq<int>, loc: map<K, int>, k: K, m: int)
    returns (root': seq<int>, pos': seq<int>)
    requires Inv(home, ns, free, root, pos, loc) && 0 <= free < |ns| && ns[free].Free()
    requires k !in loc && 0 <= m < |ns| && m == home(k)
    requires ns[m].Live() && home(ns[m].key.value) == m
    ensures var ns' := ns[free := ns[free].(key := Some(k), next := ns[m].next)][m := ns[m].(next := free)];
      && Inv(home, ns', free - 1, root', pos', loc[k := free])
      && Stores(ns, free, loc, ns', loc[k := free], k, m, free)
  {
    root', pos' := root[free := root[m]], ShiftedPos(root, pos, m)[free := pos[m]];
    StoresInChain(ns, free, loc, k, m);
    var ns' := ns[free := ns[free].(key := Some(k), next := ns[m].next)][m := ns[m].(next := free)];
    assert Located(ns', loc[k := free]) && forall j :: j in loc ==> loc[j] != free;
    NoHomeAtFree(home, ns, free, root, pos, loc);
    SplicedPlaced(home, |ns|, free, root, pos, loc, k);
    SplicedPaths(ns, free, root, pos, m, k);
  }

  lemma NoHomeAtFree<K, V>(home: K -> int, ns: seq<Node<K, V>>, free: int, root: seq<int>, pos: seq<int>, loc: map<K, int>)
    requires Inv(home, ns, free, root, pos, loc) && 0 <= free < |ns| && ns[free].Free()
    ensures forall j :: j in loc ==> home(j) != free
  {
    forall j | j in loc && home(j) == free ensures false {
      FreeIsAlone(ns, free, root, pos, loc[j]);
    }
  }

  lemma EvictedPaths<K, V>(ns: seq<Node<K, V>>, free: int, root: seq<int>, pos: seq<int>, m: int, prev: int, nm: Node<K, V>)
    requires Paths(ns, root, pos) && 0 <= free < |ns| && ns[free].Free() && 0 <= m < |ns| && m != free
    requires LinksAbove(ns, free)
    requires 0 <= prev < |ns| && ns[prev].next == m && nm.next == -1
    ensures prev != m && prev != free
    ensures LinksAbove(ns[prev := ns[prev].(next := free)][free := ns[m]][m := nm], free - 1)
    ensures Paths(ns[prev := ns[prev].(next := free)][free := ns[m]][m := nm],
                  root[free := root[m]][m := root[free]], pos[free := pos[m]][m := 0])
  {
    var root', pos' := root[free := root[m]][m := root[free]], pos[free := pos[m]][m := 0];
    var ns' := ns[prev := ns[prev].(next := free)][free := ns[m]][m := nm];
    assert Linked(ns, root, pos, prev);
    forall i | 0 <= i < |ns| ensures Linked(ns', root', pos', i) {
      assert Linked(ns, root, pos, i);
      assert Linked(ns, root, pos, m);
    }
    forall i | 0 <= i < |ns| && root[i] == root[free] ensures i == free {
      FreeIsAlone(ns, free, root, pos, i);
    }
  }

  lemma EvictedPlaced<K>(home: K -> int, size: int, free: int, root: seq<int>, pos: seq<int>, loc: map<K, int>, k: K, x: K)
    requires |root| == |pos| == size && Placed(home, size, root, pos, loc)
    requires k !in loc && x in loc && 0 <= free < size && 0 <= home(k) < size && home(k) != free && loc[x] == home(k)
    requires forall j :: j in loc ==> home(j) != free && loc[j] != free && home(j) != home(k)
    requires forall j :: j in loc && loc[j] == loc[x] ==> j == x
    ensures Placed(home, size, root[free := root[home(k)]][home(k) := root[free]], pos[free := pos[home(k)]][home(k) := 0],
                   loc[x := free][k := home(k)])
  {
  }

  lemma EvictedLocated<K, V>(ns: seq<Node<K, V>>, free: int, loc: map<K, int>, k: K, m: int, prev: int, nm: Node<K, V>)
    requires Located(ns, loc) && k !in loc && 0 <= free < |ns| && 0 <= m < |ns| && 0 <= prev < |ns|
    requires ns[free].Free() && ns[m].Live() && prev != m && prev != free && m != free && nm.key == Some(k)
    ensures Located(ns[prev := ns[prev].(next := free)][free := ns[m]][m := nm], loc[ns[m].key.value := free][k := m])
  {
  }

  /** The colliding foreign node moves to the free node and the new key takes its main slot. */
  lemma PlaceByEviction<K, V>(home: K -> int, ns: seq<Node<K, V>>, free: int, root: seq<int>, pos: seq<int>,
        loc: map<K, int>, k: K, m: int, prev: int, nm: Node<K, V>)
    returns (root': seq<int>, pos': seq<int>)
    requires Inv(home, ns, free, root, pos, loc) && 0 <= free < |ns| && ns[free].Free()
    requires k !in loc && 0 <= m < |ns| && m == home(k)
    requires ns[m].Live() && home(ns[m].key.value) != m
    requires 0 <= prev < |ns| && ns[prev].next == m && nm.next == -1 && nm.key == Some(k)
    ensures m != free && prev != m && prev != free
    ensures var ns' := ns[prev := ns[prev].(next := free)][free := ns[m]][m := nm];
      && Inv(home, ns', free - 1, root', pos', loc[ns[m].key.value := free][k := m])
      && Stores(ns, free, loc, ns', loc[ns[m].key.value := free][k := m], k, m, m)
  {
    root', pos' := root[free := root[m]][m := root[free]], pos[free := pos[m]][m := 0];
    var x := ns[m].key.value;
    EvictedPaths(ns, free, root, pos, m, prev, nm);
    StoresByEviction(ns, free, loc, k, m, prev, nm);
    assert Placed(home, |ns|, root[free := root[m]][m := root[free]], pos[free := pos[m]][m := 0], loc[x := free][k := m]) by {
      NoHomeAtFree(home, ns, free, root, pos, loc);
      assert loc[x] == m;
      assert forall j :: j in loc ==> loc[j] != free;
      EvictedPlaced(home, |ns|, free, root, pos, loc, k, x);
    }
  }

  // ----- the table -----

  function MainSlot<K>(hash: K -> nat, k: K, n: int): int
    requires n > 0
  {
    hash(k) % n
  }

  ghost function Home<K>(hash: K -> nat, n: int): K -> int
    requires n > 0
  {
    k => MainSlot(hash, k, n)
  }

  ghost predicate PowerOfTwo(n: int) {
    n == 1 || (n > 1 && n % 2 == 0 && PowerOfTwo(n / 2))
  }

  ghost function ContentsOf<K, V>(ns: seq<Node<K, V>>, loc: map<K, int>): map<K, V>
    requires Located(ns, loc)
  {
    map k | k in loc :: ns[loc[k]].val
  }

  /** Inserting a new key with main slot m leaves a free node behind. */
  ghost predicate LeavesSpare<K, V>(ns: seq<Node<K, V>>, free: int, m: int)
    requires 0 <= free < |ns| && 0 <= m < |ns|
  {
    (!ns[m].Live() && m != free) || exists i :: 0 <= i < free && ns[i].Free()
  }

  class HashTable<K(==), V> {
    const hash: K -> nat
    const nil: V
    var nodes: array<Node<K, V>>
    var firstfree: int
    var usednodes: int
    ghost var root: seq<int>
    ghost var pos: seq<int>
    ghost var loc: map<K, int>

    ghost predicate Shaped()
      reads this
    {
      nodes.Length >= MIN_POWER2 && PowerOfTwo(nodes.Length)
    }

    ghost predicate Valid()
      reads this, nodes
    {
      && Shaped()
      && Located(nodes[..], loc)
      && Inv(Home(hash, nodes.Length), nodes[..], firstfree, root, pos, loc)
      && 0 <= firstfree < nodes.Length && nodes[firstfree].Free()
      && usednodes == |loc|
    }

    /** No deletion since the last allocation, and two free nodes. */
    ghost predicate HasRoom()
      reads this, nodes
    {
      Dense(nodes[..], firstfree) && |loc| + 1 < nodes.Length
    }

    ghost predicate HasRoomFor(entries: map<K, int>)
      reads this, nodes
    {
      Dense(nodes[..], firstfree) && |entries| < nodes.Length
    }

    ghost function Contents(): map<K, V>
      requires Located(nodes[..], loc)
      reads this, nodes
    {
      ContentsOf(nodes[..], loc)
    }

    constructor (hash: K -> nat, nil: V, initialSize: int)
      ensures Valid() && fresh(nodes) && Contents() == map[]
      ensures this.hash == hash && this.nil == nil && Dense(nodes[..], firstfree)
      ensures initialSize <= nodes.Length && (nodes.Length == MIN_POWER2 || nodes.Length / 2 < initialSize)
    {
      var pow2size := MIN_POWER2;
      assert PowerOfTwo(1) && PowerOfTwo(2);
      while initialSize > pow2size
        invariant pow2size >= MIN_POWER2 && PowerOfTwo(pow2size)
        invariant pow2size == MIN_POWER2 || pow2size / 2 < initialSize
        decreases initialSize - pow2size
      {
        pow2size := pow2size * 2;
      }
      this.hash := hash;
      this.nil := nil;
      nodes := new Node<K, V>[0];
      firstfree := 0;
      usednodes := 0;
      new;
      AllocNodes(pow2size);
    }

    method AllocNodes(size: int)
      requires size >= MIN_POWER2 && PowerOfTwo(size)
      modifies this
      ensures fresh(nodes) && nodes.Length == size && loc == map[] && usednodes == old(usednodes)
      ensures Inv(Home(hash, size), nodes[..], firstfree, root, pos, loc) && Dense(nodes[..], firstfree)
      ensures firstfree == size - 1 && forall i :: 0 <= i < size ==> nodes[i] == Node(None, nil, -1)
    {
      var n := nil;
      nodes := new Node<K, V>[size](_ => Node(None, n, -1));
      firstfree := size - 1;
      root, pos, loc := seq(size, i => i), seq(size, i => 0), map[];
      assert Paths(nodes[..], root, pos) by {
        forall i | 0 <= i < size ensures Linked(nodes[..], root, pos, i) { }
      }
    }

    /** The chain walk: the node on the path from slot h that holds the key, or -1. */
    method FindNode(key: Option<K>, h: int) returns (n: int)
      requires Paths(nodes[..], root, pos) && 0 <= h < nodes.Length
      ensures n == -1 || (0 <= n < nodes.Length && nodes[n].key == key)
      ensures n == -1 ==> forall i :: 0 <= i < nodes.Length && root[i] == root[h] && pos[i] <= pos[h] ==> nodes[i].key != key
    {
      n := h;
      while true
        invariant 0 <= n < nodes.Length && root[n] == root[h] && pos[n] <= pos[h]
        invariant forall i :: 0 <= i < nodes.Length && root[i] == root[h] && pos[n] < pos[i] <= pos[h] ==> nodes[i].key != key
        decreases pos[n]
      {
        assert Linked(nodes[..], root, pos, n);
        if nodes[n].key == key { return; }
        if nodes[n].next == -1 {
          forall i | 0 <= i < nodes.Length && root[i] == root[h] && pos[i] <= pos[h] ensures nodes[i].key != key {
            assert Linked(nodes[..], root, pos, i);
          }
          return -1;
        }
        n := nodes[n].next;
      }
    }

    /** The node of a key, or -1 when the table does not hold it. */
    method FindKey(key: K) returns (n: int)
      requires Valid()
      ensures if key in loc then n == loc[key] && 0 <= n < nodes.Length && nodes[n].key == Some(key) else n == -1
    {
      n := FindNode(Some(key), MainSlot(hash, key, nodes.Length));
    }

    method Get(key: Option<K>) returns (r: Option<V>)
      requires Valid()
      ensures r == if key.Some? && key.value in Contents() then Some(Contents()[key.value]) else None
    {
      if key.None? { return None; }
      var n := FindKey(key.value);
      if n != -1 { return Some(nodes[n].val); }
      return None;
    }

    /** Overwrites a present key only.  A null key can hit an empty node, which
        reports success and changes no entry. */
    method Set(key: Option<K>, val: V) returns (ok: bool)
      requires Valid()
      modifies nodes
      ensures Valid()
      ensures key.Some? ==> ok == (key.value in old(Contents()))
      ensures Contents() == if key.Some? && ok then old(Contents())[key.value := val] else old(Contents())
    {
      var n := FindNode(key, if key.Some? then MainSlot(hash, key.value, nodes.Length) else 0);
      if n != -1 {
        Overwrite(n, val);
        return true;
      }
      return false;
    }

    method Overwrite(n: int, val: V)
      requires Valid() && 0 <= n < nodes.Length
      modifies nodes
      ensures Valid()
      ensures nodes[..] == old(nodes[..])[n := old(nodes[n]).(val := val)]
      ensures Dense(old(nodes[..]), firstfree) ==> Dense(nodes[..], firstfree)
      ensures Contents() == if old(nodes[n].Live()) then old(Contents())[old(nodes[n].key.value) := val] else old(Contents())
    {
      hide Paths, Located, Placed, LinksAbove, Dense;
      ghost var ns := nodes[..];
      ValueOnly(Home(hash, nodes.Length), ns, firstfree, root, pos, loc, n, val);
      ValueChange(ns, firstfree, loc, n, val);
      nodes[n] := nodes[n].(val := val);
      assert nodes[..] == ns[n := ns[n].(val := val)];
    }

    /** Finds the node linked to mp on the path of mp's own key. */
    method FindPrevious(mp: int, start: int) returns (othern: int)
      requires Paths(nodes[..], root, pos) && 0 <= mp < nodes.Length && 0 <= start < nodes.Length
      requires start != mp && root[start] == root[mp] && pos[start] >= pos[mp]
      ensures 0 <= othern < nodes.Length && nodes[othern].next == mp
    {
      othern := start;
      while nodes[othern].next != mp
        invariant 0 <= othern < nodes.Length && root[othern] == root[mp] && pos[othern] > pos[mp]
        decreases pos[othern]
      {
        assert Linked(nodes[..], root, pos, othern) && Linked(nodes[..], root, pos, mp);
        othern := nodes[othern].next;
        assert pos[othern] >= pos[mp];
      }
    }

    method StoreAtMain(key: K, mp: int)
      requires Valid() && key !in loc && mp == MainSlot(hash, key, nodes.Length) && !nodes[mp].Live()
      modifies nodes, `loc
      ensures Inv(Home(hash, nodes.Length), nodes[..], firstfree - 1, root, pos, loc)
      ensures Stores(old(nodes[..]), firstfree, old(loc), nodes[..], loc, key, MainSlot(hash, key, nodes.Length), mp)
    {
      ghost var ns := nodes[..];
      StoresAtMain(ns, firstfree, loc, key, mp);
      PlaceAtMain(Home(hash, nodes.Length), ns, firstfree, root, pos, loc, key, mp);
      nodes[mp] := nodes[mp].(key := Some(key));
      loc := loc[key := mp];
      assert nodes[..] == ns[mp := ns[mp].(key := Some(key))];
    }

    method StoreInChain(key: K, mp: int) returns (n: int)
      requires Valid() && key !in loc && mp == MainSlot(hash, key, nodes.Length)
      requires nodes[mp].Live() && MainSlot(hash, nodes[mp].key.value, nodes.Length) == mp
      modifies nodes, `loc, `root, `pos
      ensures Inv(Home(hash, nodes.Length), nodes[..], firstfree - 1, root, pos, loc)
      ensures Stores(old(nodes[..]), firstfree, old(loc), nodes[..], loc, key, MainSlot(hash, key, nodes.Length), n)
    {
      hide Paths, Located, Placed, LinksAbove, Stores;
      n := firstfree;
      ghost var root', pos' := PlaceInChain(Home(hash, nodes.Length), nodes[..], n, root, pos, loc, key, mp);
      LinkAfter(key, mp, n);
      root, pos, loc := root', pos', loc[key := n];
    }

    /** Puts the key in node n and chains n right after mp. */
    method LinkAfter(key: K, mp: int, n: int)
      requires 0 <= mp < nodes.Length && 0 <= n < nodes.Length && n != mp
      modifies nodes
      ensures var ns := old(nodes[..]); nodes[..] == ns[n := ns[n].(key := Some(key), next := ns[mp].next)][mp := ns[mp].(next := n)]
    {
      nodes[n] := nodes[n].(next := nodes[mp].next);
      nodes[mp] := nodes[mp].(next := n);
      nodes[n] := nodes[n].(key := Some(key));
    }

    /** Redoes the chain with node n in place of mp, and gives mp to the key. */
    method Relocate(key: K, mp: int, n: int, othern: int)
      requires 0 <= mp < nodes.Length && 0 <= n < nodes.Length && 0 <= othern < nodes.Length && n != mp && othern != mp && othern != n
      modifies nodes
      ensures var ns := old(nodes[..]); nodes[..] == ns[othern := ns[othern].(next := n)][n := ns[mp]][mp := Node(Some(key), nil, -1)]
    {
      nodes[othern] := nodes[othern].(next := n);
      nodes[n] := Node(nodes[mp].key, nodes[mp].val, nodes[mp].next);
      nodes[mp] := Node(None, nil, -1);
      nodes[mp] := nodes[mp].(key := Some(key));
    }

    method StoreByEviction(key: K, mp: int)
      requires Valid() && key !in loc && mp == MainSlot(hash, key, nodes.Length)
      requires nodes[mp].Live() && MainSlot(hash, nodes[mp].key.value, nodes.Length) != mp
      modifies nodes, `loc, `root, `pos
      ensures Inv(Home(hash, nodes.Length), nodes[..], firstfree - 1, root, pos, loc)
      ensures Stores(old(nodes[..]), firstfree, old(loc), nodes[..], loc, key, MainSlot(hash, key, nodes.Length), mp)
    {
      hide Paths, Located, Placed, LinksAbove, Stores;
      ghost var x := nodes[mp].key.value;
      var n, start := firstfree, MainSlot(hash, nodes[mp].key.value, nodes.Length);
      OnOwnPath(Home(hash, nodes.Length), nodes[..], firstfree, root, pos, loc, mp);
      var othern := FindPrevious(mp, start);
      ghost var root', pos' := PlaceByEviction(Home(hash, nodes.Length), nodes[..], n, root, pos, loc, key, mp, othern,
          Node(Some(key), nil, -1));
      Relocate(key, mp, n, othern);
      root, pos, loc := root', pos', loc[x := n][key := mp];
    }

    /** Moves `firstfree` down to the next free node, if there is one. */
    method SettleFree() returns (found: bool)
      requires 0 <= firstfree < nodes.Length
      modifies `firstfree
      ensures 0 <= firstfree <= old(firstfree)
      ensures found ==> nodes[firstfree].Free()
      ensures forall i :: firstfree < i <= old(firstfree) ==> !nodes[..][i].Free()
      ensures !found ==> firstfree == 0 && !nodes[..][0].Free()
    {
      while true
        invariant 0 <= firstfree <= old(firstfree)
        invariant forall i :: firstfree < i <= old(firstfree) ==> !nodes[i].Free()
        decreases firstfree
      {
        if nodes[firstfree].Free() { return true; }
        if firstfree == 0 { return false; }
        firstfree := firstfree - 1;
      }
    }

    /** Adds or overwrites an entry.  The result is true only for a new key, but a new key
        whose insertion uses the last free node is reported as false. */
    method NewSlot(key: K, val: V) returns (created: bool)
      requires Valid()
      modifies this, nodes
      ensures Valid() && (nodes == old(nodes) || fresh(nodes))
      ensures Contents() == old(Contents())[key := val]
      ensures created <==> key !in old(Contents()) && LeavesSpare(old(nodes[..]), old(firstfree), MainSlot(hash, key, old(nodes.Length)))
      ensures created ==> nodes == old(nodes)
      ensures old(key !in loc && HasRoom()) ==> created && Dense(nodes[..], firstfree)
      decreases (if key in loc then 0 else if HasRoom() then 1 else 3), 1
    {
      hide Inv, Located, Dense, LeavesSpare, ContentsOf, PowerOfTwo;
      ContentsSize(nodes[..], loc);
      var n := FindKey(key);
      if n != -1 {
        Overwrite(n, val);
        return false;
      }
      created := Insert(key, val);
    }

    /** Adds an absent key: the free pointer then moves down to the next free node, or the table is rehashed. */
    method Insert(key: K, val: V) returns (created: bool)
      requires Valid() && key !in loc
      modifies this, nodes
      ensures Valid() && (nodes == old(nodes) || fresh(nodes))
      ensures Contents() == old(Contents())[key := val]
      ensures created <==> LeavesSpare(old(nodes[..]), old(firstfree), MainSlot(hash, key, old(nodes.Length)))
      ensures created ==> nodes == old(nodes)
      ensures old(HasRoom()) ==> created && Dense(nodes[..], firstfree)
      decreases (if HasRoom() then 1 else 3), 0
    {
      hide Paths, Located, Placed, LinksAbove, Stores, Dense, LeavesSpare, ContentsOf, PowerOfTwo;
      ContentsSize(nodes[..], loc);
      var h := MainSlot(hash, key, nodes.Length);
      var mp := Store(key, h);
      ghost var ns0, free0, loc0, ns1 := old(nodes[..]), firstfree, old(loc), nodes[..];
      StoredContents(ns0, free0, loc0, ns1, loc, key, h, mp, val);
      var found := SettleFree();
      assert nodes[..] == ns1;
      if found {
        Settled(ns0, free0, loc0, ns1, loc, key, h, mp, firstfree);
        usednodes := usednodes + 1;
        Overwrite(mp, val);
        created := true;
      } else {
        Exhausted(ns0, free0, loc0, ns1, loc, key, h, mp);
        RehashAndStore(key, val);
        created := false;
      }
    }

    /** The last free node went to `key`: rehash, then store the value under the key now present. */
    method RehashAndStore(key: K, val: V)
      requires Shaped() && Located(nodes[..], loc) && usednodes <= |loc| <= usednodes + 1 && key in Contents()
      modifies this, nodes
      ensures Valid() && fresh(nodes)
      ensures Contents() == old(Contents())[key := val]
      decreases 2, 2
    {
      hide Inv, PowerOfTwo, Located, Dense, LeavesSpare, ContentsOf;
      Rehash(true);
      ContentsSize(nodes[..], loc);
      var _ := NewSlot(key, val);
    }

    /** Stores an absent key: in its main slot, in a node chained to it, or in place of the foreign node found there. */
    method Store(key: K, h: int) returns (mp: int)
      requires Valid() && key !in loc && h == MainSlot(hash, key, nodes.Length)
      modifies nodes, `loc, `root, `pos
      ensures Inv(Home(hash, nodes.Length), nodes[..], firstfree - 1, root, pos, loc)
      ensures Stores(old(nodes[..]), firstfree, old(loc), nodes[..], loc, key, h, mp)
    {
      hide Paths, Located, Placed, LinksAbove, Stores;
      mp := h;
      if nodes[mp].Live() {
        if mp > firstfree && MainSlot(hash, nodes[mp].key.value, nodes.Length) != mp {
          StoreByEviction(key, mp);
        } else {
          ForeignAboveFree(Home(hash, nodes.Length), nodes[..], firstfree, root, pos, loc, mp);
          mp := StoreInChain(key, mp);
        }
      } else {
        StoreAtMain(key, mp);
      }
    }

    /** Reallocates the array when it is too full or too empty, or when forced to, and
        reinserts every live node.  No reinsertion triggers another rehash. */
    method Rehash(force: bool)
      requires Shaped() && Located(nodes[..], loc)
      requires if force then usednodes <= |loc| <= usednodes + 1 else Valid()
      modifies this
      ensures Valid() && (nodes == old(nodes) || fresh(nodes)) && (force ==> fresh(nodes))
      ensures Contents() == old(Contents())
      decreases 2, 1
    {
      hide Paths, Placed;
      var oldsize := nodes.Length;
      if oldsize < 4 { oldsize := 4; }
      var nold := nodes;
      ghost var loc0 := loc;
      var nelems := usednodes;
      KeyCount(nodes[..], loc);
      if nelems >= oldsize - oldsize / 4 {
        assert PowerOfTwo(oldsize * 2);
        AllocNodes(oldsize * 2);
      } else if nelems <= oldsize / 4 && oldsize > MIN_POWER2 {
        HalfPower(oldsize);
        AllocNodes(oldsize / 2);
      } else if force {
        AllocNodes(oldsize);
      } else {
        return;
      }
      usednodes := 0;
      Reinsert(nold, loc0);
    }

    /** The reinsertion loop of a rehash, on a freshly allocated array. */
    method Reinsert(nold: array<Node<K, V>>, ghost loc0: map<K, int>)
      requires Valid() && nodes != nold && loc == map[]
      requires Located(nold[..], loc0) && HasRoomFor(loc0)
      modifies this, nodes
      ensures Valid() && nodes == old(nodes)
      ensures Contents() == ContentsOf(nold[..], loc0)
      decreases 2, 0
    {
      hide Paths, Located, Placed, LinksAbove, Dense, LeavesSpare, EntriesBelow, ContentsOf;
      ghost var ns := nold[..];
      NothingBelow(ns, loc0);
      ContentsSize(nodes[..], loc);
      for i := 0 to nold.Length
        invariant Valid() && nodes == old(nodes) && nold[..] == ns && HasRoomFor(loc0)
        invariant Contents() == EntriesBelow(ns, loc0, i)
      {
        ContentsSize(nodes[..], loc);
        if nold[i].Live() {
          OneMoreBelow(ns, loc0, i);
          var _ := NewSlot(nold[i].key.value, nold[i].val);
        } else {
          NoneBetween(ns, loc0, i, i + 1);
        }
      }
      AllBelow(ns, loc0, |ns|);
    }

    /** Deletes an entry; its node keeps its link and may stay inside other keys' chains. */
    method Remove(key: K)
      requires Valid()
      modifies this, nodes
      ensures Valid() && (nodes == old(nodes) || fresh(nodes))
      ensures Contents() == old(Contents()) - {key}
    {
      hide Paths, Located, Placed, LinksAbove;
      var n := FindKey(key);
      if n == -1 {
        assert Contents() == Contents() - {key};
      } else {
        ghost var ns, loc0 := nodes[..], loc;
        Deleted(Home(hash, nodes.Length), ns, firstfree, root, pos, loc, key, nil);
        nodes[n] := nodes[n].(val := nil, key := None);
        usednodes := usednodes - 1;
        loc := loc - {key};
        assert nodes[..] == ns[n := ns[n].(val := nil, key := None)];
        Rehash(false);
      }
    }

    method ClearNodes()
      modifies nodes
      ensures forall i :: 0 <= i < nodes.Length ==> nodes[i].key.None?
    {
      for i := 0 to nodes.Length
        invariant forall j :: 0 <= j < i ==> nodes[j].key.None?
      {
        nodes[i] := nodes[i].(key := None, val := nil);
      }
    }

    method Clear()
      requires Valid()
      modifies this, nodes
      ensures Valid() && fresh(nodes) && Contents() == map[]
    {
      hide Paths, Placed, LinksAbove;
      ClearNodes();
      usednodes, loc := 0, map[];
      assert Located(nodes[..], loc) && Contents() == map[];
      Rehash(true);
    }

    method CountUsed() returns (n: int)
      requires Valid()
      ensures n == |Contents()|
    {
      assert loc.Keys == Contents().Keys;
      n := usednodes;
    }

    /** One step of an iteration: the first live node at or after idx, and the position to go on from; -1 at the end. */
    method Next(idx: nat) returns (next: int, entry: Option<(K, V)>)
      requires idx <= nodes.Length
      ensures Upcoming(nodes[..], idx, next, entry)
    {
      next := idx;
      while next < nodes.Length
        invariant idx <= next <= nodes.Length && forall i :: idx <= i < next ==> !nodes[..][i].Live()
      {
        if nodes[next].Live() {
          entry := Some((nodes[next].key.value, nodes[next].val));
          next := next + 1;
          return;
        }
        next := next + 1;
      }
      return -1, None;
    }

    /** A whole iteration meets every live key exactly once, with its value. */
    method Iterate() returns (entries: seq<(K, V)>)
      requires Valid()
      ensures |entries| == |Contents()|
      ensures forall e :: e in entries ==> e.0 in Contents() && Contents()[e.0] == e.1
      ensures forall k :: k in Contents() ==> (k, Contents()[k]) in entries
      ensures forall i, j :: 0 <= i < j < |entries| ==> entries[i].0 != entries[j].0
    {
      hide Paths, Located, Placed, LinksAbove, Traversed;
      entries := [];
      TraverseStart(nodes[..], loc);
      var idx, entry := Next(0);
      ghost var done := 0;
      while idx != -1
        invariant 0 <= done <= nodes.Length
        invariant Traversed(nodes[..], loc, done, entries) && Upcoming(nodes[..], done, idx, entry)
        decreases nodes.Length - done
      {
        TraverseStep(nodes[..], loc, done, idx, entry, entries);
        entries := entries + [entry.value];
        done := idx;
        idx, entry := Next(idx);
      }
      TraverseEnd(nodes[..], loc, done, entries);
    }

    method Clone() returns (nt: HashTable<K, V>)
      requires Valid()
      ensures fresh(nt) && nt.Valid() && fresh(nt.nodes) && nt.Contents() == Contents()
    {
      hide Paths, Located, Placed, LinksAbove, EntriesBelow, ContentsOf, Dense, LeavesSpare;
      nt := new HashTable(hash, nil, nodes.Length);
      NothingBelow(nodes[..], loc);
      var idx, entry := Next(0);
      ghost var done := 0;
      while idx != -1
        invariant nt.Valid() && fresh(nt) && fresh(nt.nodes) && 0 <= done <= nodes.Length
        invariant nt.Contents() == EntriesBelow(nodes[..], loc, done) && Upcoming(nodes[..], done, idx, entry)
        decreases nodes.Length - done
      {
        NextBelow(nodes[..], loc, done, idx, entry);
        var _ := nt.NewSlot(entry.value.0, entry.value.1);
        done := idx;
        idx, entry := Next(idx);
      }
      AllBelow(nodes[..], loc, done);
    }
  }

  /** What one iteration step finds from position done on. */
  ghost predicate Upcoming<K, V>(ns: seq<Node<K, V>>, done: int, idx: int, entry: Option<(K, V)>)
    requires 0 <= done <= |ns|
  {
    if idx == -1 then
      entry.None? && forall i :: done <= i < |ns| ==> !ns[i].Live()
    else
      && done < idx <= |ns| && entry.Some?
      && ns[idx - 1].key == Some(entry.value.0) && ns[idx - 1].val == entry.value.1
      && forall i :: done <= i < idx - 1 ==> !ns[i].Live()
  }

  lemma ContentsSize<K, V>(ns: seq<Node<K, V>>, loc: map<K, int>)
    requires Located(ns, loc)
    ensures ContentsOf(ns, loc).Keys == loc.Keys && |ContentsOf(ns, loc)| == |loc|
    ensures loc == map[] ==> ContentsOf(ns, loc) == map[]
  {
    assert ContentsOf(ns, loc).Keys == loc.Keys;
  }

  lemma NothingBelow<K, V>(ns: seq<Node<K, V>>, loc: map<K, int>)
    requires Located(ns, loc)
    ensures EntriesBelow(ns, loc, 0) == map[]
  {
  }

  lemma NextBelow<K, V>(ns: seq<Node<K, V>>, loc: map<K, int>, done: int, idx: int, entry: Option<(K, V)>)
    requires Located(ns, loc) && 0 <= done <= |ns| && idx != -1 && Upcoming(ns, done, idx, entry)
    ensures EntriesBelow(ns, loc, idx) == EntriesBelow(ns, loc, done)[entry.value.0 := entry.value.1]
    ensures |EntriesBelow(ns, loc, idx)| == |EntriesBelow(ns, loc, done)| + 1
  {
    NoneBetween(ns, loc, done, idx - 1);
    OneMoreBelow(ns, loc, idx - 1);
  }

  lemma AllBelow<K, V>(ns: seq<Node<K, V>>, loc: map<K, int>, done: int)
    requires Located(ns, loc) && 0 <= done <= |ns| && Upcoming(ns, done, -1, None)
    ensures EntriesBelow(ns, loc, done) == ContentsOf(ns, loc)
  {
    NoneBetween(ns, loc, done, |ns|);
  }

  // ----- whole runs -----

  datatype Op<K, V> = Put(k: K, v: V) | Assign(k: K, v: V) | Delete(k: K) | ClearAll

  /** The meaning of an operation on a plain map. */
  function Apply<K, V>(m: map<K, V>, op: Op<K, V>): map<K, V> {
    match op
    case Put(k, v) => m[k := v]
    case Assign(k, v) => if k in m then m[k := v] else m
    case Delete(k) => m - {k}
    case ClearAll => map[]
  }

  function ApplyAll<K, V>(m: map<K, V>, ops: seq<Op<K, V>>): map<K, V> {
    if ops == [] then m else Apply(ApplyAll(m, ops[..|ops| - 1]), ops[|ops| - 1])
  }

  method Perform<K(==), V>(t: HashTable<K, V>, op: Op<K, V>)
    requires t.Valid()
    modifies t, t.nodes
    ensures t.Valid() && (t.nodes == old(t.nodes) || fresh(t.nodes))
    ensures t.Contents() == Apply(old(t.Contents()), op)
  {
    hide Inv, PowerOfTwo, Located, ContentsOf, Dense, LeavesSpare;
    match op
    case Put(k, v) => var _ := t.NewSlot(k, v);
    case Assign(k, v) => var _ := t.Set(Some(k), v);
    case Delete(k) => t.Remove(k);
    case ClearAll => t.Clear();
  }

  /** Any run of operations on a new table leaves what the same run leaves in a plain map. */
  method Replay<K(==), V>(hash: K -> nat, nil: V, initialSize: int, ops: seq<Op<K, V>>) returns (t: HashTable<K, V>)
    ensures fresh(t) && t.Valid() && t.Contents() == ApplyAll(map[], ops)
  {
    hide Inv, PowerOfTwo, Located, ContentsOf;
    t := new HashTable(hash, nil, initialSize);
    for i := 0 to |ops|
      invariant fresh(t) && fresh(t.nodes) && t.Valid() && t.Contents() == ApplyAll(map[], ops[..i])
    {
      assert ops[..i + 1][..i] == ops[..i];
      Perform(t, ops[i]);
    }
    assert ops[..|ops|] == ops;
  }

  /** When one node is left, no insertion of a new key leaves a spare. */
  lemma LastNodeLeavesNoSpare<K, V>(ns: seq<Node<K, V>>, free: int, loc: map<K, int>, m: int)
    requires Located(ns, loc) && 0 <= free < |ns| && ns[free].Free() && 0 <= m < |ns|
    requires |loc| + 1 == |ns|
    ensures !LeavesSpare(ns, free, m)
  {
    if LeavesSpare(ns, free, m) {
      var i :| 0 <= i < |ns| && i != free && !ns[i].Live();
      TwoDead(ns, loc, i, free);
    }
  }

  lemma {:induction false} TwoDead<K, V>(ns: seq<Node<K, V>>, loc: map<K, int>, i: int, j: int)
    requires Located(ns, loc) && 0 <= i < |ns| && 0 <= j < |ns| && i != j && !ns[i].Live() && !ns[j].Live()
    ensures |loc| + 2 <= |ns|
    decreases |ns|
  {
    var last := |ns| - 1;
    var ms := ns[..last];
    var loc' := DropLast(ns, loc);
    hide Located;
    if i == last || j == last {
      KeyCount(ms, loc');
      assert !ms[if i == last then j else i].Live();
    } else {
      TwoDead(ms, loc', i, j);
    }
  }

  /** The keys in the table are all below `n`, and none has been deleted. */
  ghost predicate HoldsBelow(t: HashTable<int, int>, n: int)
    reads t, t.nodes
  {
    && t.Valid() && Dense(t.nodes[..], t.firstfree)
    && KeysBelow(t.Contents(), n)
  }

  ghost predicate KeysBelow(m: map<int, int>, n: int) {
    |m| == n && forall k :: k in m ==> k < n
  }

  lemma KeysBelowNext(m: map<int, int>, n: int, v: int)
    requires KeysBelow(m, n)
    ensures KeysBelow(m[n := v], n + 1)
  {
    OneMoreKey(m, n, v);
  }

  lemma RoomForAnother(t: HashTable<int, int>, n: int)
    requires HoldsBelow(t, n) && n + 1 < t.nodes.Length
    ensures n !in t.loc && t.HasRoom()
  {
    hide Inv, PowerOfTwo, Located, Dense, ContentsOf;
    ContentsSize(t.nodes[..], t.loc);
  }

  method AddKey(t: HashTable<int, int>, n: int)
    requires HoldsBelow(t, n) && n + 1 < t.nodes.Length
    modifies t, t.nodes
    ensures HoldsBelow(t, n + 1) && t.nodes == old(t.nodes)
  {
    hide Inv, PowerOfTwo, Located, Dense, LeavesSpare, ContentsOf, KeysBelow;
    ghost var was := t.Contents();
    RoomForAnother(t, n);
    var _ := t.NewSlot(n, n + 10);
    KeysBelowNext(was, n, n + 10);
  }

  /** A table of four nodes that holds three keys. */
  method NearlyFull() returns (t: HashTable<int, int>)
    ensures fresh(t) && fresh(t.nodes) && t.nodes.Length == 4 && HoldsBelow(t, 3)
  {
    hide Inv, PowerOfTwo, Located, Dense, LeavesSpare, ContentsOf;
    t := new HashTable<int, int>(k => if k < 0 then -k else k, 0, 0);
    ContentsSize(t.nodes[..], t.loc);
    assert HoldsBelow(t, 0);
    hide HoldsBelow;
    for i := 0 to 3
      invariant fresh(t) && fresh(t.nodes) && t.nodes.Length == 4 && HoldsBelow(t, i)
    {
      AddKey(t, i);
    }
  }

  /** Whenever one free node is left, inserting a new key stores it and reports false. */
  method LastNodeReportsFalse<K(==), V>(t: HashTable<K, V>, key: K, val: V) returns (created: bool)
    requires t.Valid() && |t.loc| + 1 == t.nodes.Length && key !in t.Contents()
    modifies t, t.nodes
    ensures !created && t.Valid() && t.Contents() == old(t.Contents())[key := val]
  {
    hide Inv, PowerOfTwo, Located, Dense, LeavesSpare, ContentsOf;
    LastNodeLeavesNoSpare(t.nodes[..], t.firstfree, t.loc, MainSlot(t.hash, key, t.nodes.Length));
    created := t.NewSlot(key, val);
  }

  /** A fresh four-node table takes keys 0, 1 and 2; inserting the new key 3 then reports false. */
  method NewKeyReportedAsPresent() returns (before: Option<int>, created: bool, after: Option<int>)
    ensures before == None && !created && after == Some(13)
  {
    hide Inv, PowerOfTwo, Located, Dense, ContentsOf;
    var t := NearlyFull();
    ContentsSize(t.nodes[..], t.loc);
    before := t.Get(Some(3));
    created := LastNodeReportsFalse(t, 3, 13);
    after := t.Get(Some(3));
  }

  lemma NoneBetween<K, V>(ns: seq<Node<K, V>>, loc: map<K, int>, i: int, j: int)
    requires Located(ns, loc) && 0 <= i <= j <= |ns| && forall q :: i <= q < j ==> !ns[q].Live()
    ensures EntriesBelow(ns, loc, j) == EntriesBelow(ns, loc, i)
  {
  }

  ghost predicate Traversed<K, V>(ns: seq<Node<K, V>>, loc: map<K, int>, done: int, entries: seq<(K, V)>)
    requires Located(ns, loc)
  {
    && |entries| == |EntriesBelow(ns, loc, done)|
    && (forall e :: e in entries ==> e.0 in loc && loc[e.0] < done && ns[loc[e.0]].val == e.1)
    && (forall k :: k in loc && loc[k] < done ==> (k, ns[loc[k]].val) in entries)
    && (forall i, j :: 0 <= i < j < |entries| ==> entries[i].0 != entries[j].0)
  }

  lemma TraverseStart<K, V>(ns: seq<Node<K, V>>, loc: map<K, int>)
    requires Located(ns, loc)
    ensures Traversed(ns, loc, 0, [])
  {
    NothingBelow(ns, loc);
  }

  lemma TraverseStep<K, V>(ns: seq<Node<K, V>>, loc: map<K, int>, done: int, idx: int, entry: Option<(K, V)>, entries: seq<(K, V)>)
    requires Located(ns, loc) && 0 <= done <= |ns| && Traversed(ns, loc, done, entries)
    requires idx != -1 && Upcoming(ns, done, idx, entry)
    ensures Traversed(ns, loc, idx, entries + [entry.value])
  {
    NextBelow(ns, loc, done, idx, entry);
    var entries' := entries + [entry.value];
    forall k | k in loc && loc[k] < idx ensures (k, ns[loc[k]].val) in entries' {
      if loc[k] == idx - 1 { assert entries'[|entries|] == (k, ns[loc[k]].val); }
    }
    forall j | 0 <= j < |entries| ensures entries[j].0 != entry.value.0 { assert entries[j] in entries; }
  }

  lemma TraverseEnd<K, V>(ns: seq<Node<K, V>>, loc: map<K, int>, done: int, entries: seq<(K, V)>)
    requires Located(ns, loc) && 0 <= done <= |ns| && Traversed(ns, loc, done, entries) && Upcoming(ns, done, -1, None)
    ensures |entries| == |ContentsOf(ns, loc)|
    ensures forall e :: e in entries ==> e.0 in ContentsOf(ns, loc) && ContentsOf(ns, loc)[e.0] == e.1
    ensures forall k :: k in ContentsOf(ns, loc) ==> (k, ContentsOf(ns, loc)[k]) in entries
    ensures forall i, j :: 0 <= i < j < |entries| ==> entries[i].0 != entries[j].0
  {
    AllBelow(ns, loc, done);
  }

  lemma Deleted<K, V>(home: K -> int, ns: seq<Node<K, V>>, free: int, root: seq<int>, pos: seq<int>, loc: map<K, int>, key: K, nil: V)
    requires Inv(home, ns, free, root, pos, loc) && key in loc
    ensures 0 <= loc[key] < |ns| && |loc - {key}| == |loc| - 1
    ensures var ns' := ns[loc[key] := ns[loc[key]].(val := nil, key := None)];
      Inv(home, ns', free, root, pos, loc - {key}) && ContentsOf(ns', loc - {key}) == ContentsOf(ns, loc) - {key}
  {
    hide Placed, LinksAbove, ContentsOf;
    var ns' := ns[loc[key] := ns[loc[key]].(val := nil, key := None)];
    DeletedLocated(ns, loc, key, nil);
    DeletedPlaced(home, |ns|, root, pos, loc, key);
    hide Located, Paths;
    SameLinks(ns, ns', free, root, pos);
  }

  lemma DeletedPlaced<K>(home: K -> int, size: int, root: seq<int>, pos: seq<int>, loc: map<K, int>, key: K)
    requires |root| == |pos| == size && Placed(home, size, root, pos, loc)
    ensures Placed(home, size, root, pos, loc - {key})
  {
  }

  lemma DeletedLocated<K, V>(ns: seq<Node<K, V>>, loc: map<K, int>, key: K, nil: V)
    requires Located(ns, loc) && key in loc
    ensures var ns' := ns[loc[key] := ns[loc[key]].(val := nil, key := None)];
      Located(ns', loc - {key}) && ContentsOf(ns', loc - {key}) == ContentsOf(ns, loc) - {key}
    ensures |loc - {key}| == |loc| - 1
  {
    assert (loc - {key}).Keys == loc.Keys - {key};
  }

  ghost function EntriesBelow<K, V>(ns: seq<Node<K, V>>, loc: map<K, int>, i: int): map<K, V>
    requires Located(ns, loc)
  {
    map k | k in loc && loc[k] < i :: ns[loc[k]].val
  }

  lemma OneMoreBelow<K, V>(ns: seq<Node<K, V>>, loc: map<K, int>, i: int)
    requires Located(ns, loc) && 0 <= i < |ns| && ns[i].Live()
    ensures ns[i].key.value !in EntriesBelow(ns, loc, i)
    ensures EntriesBelow(ns, loc, i + 1) == EntriesBelow(ns, loc, i)[ns[i].key.value := ns[i].val]
    ensures |EntriesBelow(ns, loc, i)| < |loc|
  {
    var below, k := EntriesBelow(ns, loc, i), ns[i].key.value;
    assert below.Keys <= loc.Keys - {k};
    SubsetSize(below.Keys, loc.Keys - {k});
  }

  lemma HalfPower(n: int)
    requires n > MIN_POWER2 && PowerOfTwo(n)
    ensures n / 2 >= MIN_POWER2 && PowerOfTwo(n / 2) && n / 4 + 1 < n / 2
  {
    assert PowerOfTwo(n / 2) && PowerOfTwo(n / 2 / 2);
  }

  lemma Settled<K, V>(ns: seq<Node<K, V>>, free: int, loc: map<K, int>, ns': seq<Node<K, V>>, loc': map<K, int>, key: K,
        m: int, mp: int, free': int)
    requires Located(ns, loc) && 0 <= free < |ns| && 0 <= m < |ns| && Stores(ns, free, loc, ns', loc', key, m, mp)
    requires LinksAbove(ns, free) && LinksAbove(ns', free - 1)
    requires 0 <= free' <= free && ns'[free'].Free() && forall i :: free' < i <= free ==> !ns'[i].Free()
    ensures LinksAbove(ns', free') && LeavesSpare(ns, free, m)
    ensures Dense(ns, free) ==> Dense(ns', free')
    ensures |loc'| == |loc| + 1
  {
    hide Located;
    assert |loc'.Keys| == |loc.Keys| + 1;
  }

  lemma Exhausted<K, V>(ns: seq<Node<K, V>>, free: int, loc: map<K, int>, ns': seq<Node<K, V>>, loc': map<K, int>, key: K, m: int, mp: int)
    requires Located(ns, loc) && 0 <= free < |ns| && 0 <= m < |ns| && Stores(ns, free, loc, ns', loc', key, m, mp)
    requires forall i :: 0 <= i <= free ==> !ns'[i].Free()
    ensures !LeavesSpare(ns, free, m)
    ensures Dense(ns, free) ==> |loc| + 1 == |ns|
    ensures |loc'| == |loc| + 1
  {
    hide Located;
    assert |loc'.Keys| == |loc.Keys| + 1;
    KeyCount(ns', loc');
  }

  lemma StoredContents<K, V>(ns: seq<Node<K, V>>, free: int, loc: map<K, int>, ns': seq<Node<K, V>>, loc': map<K, int>,
        key: K, m: int, mp: int, val: V)
    requires Located(ns, loc) && 0 <= free < |ns| && 0 <= m < |ns| && Stores(ns, free, loc, ns', loc', key, m, mp)
    ensures 0 <= mp < |ns'|
    ensures Located(ns'[mp := ns'[mp].(val := val)], loc')
    ensures ContentsOf(ns'[mp := ns'[mp].(val := val)], loc') == ContentsOf(ns, loc)[key := val]
    ensures ContentsOf(ns', loc') == ContentsOf(ns, loc)[key := ns'[mp].val]
  {
  }

  /** A node at or below `free` is the target of no link, so it holds a key of its own slot. */
  lemma ForeignAboveFree<K, V>(home: K -> int, ns: seq<Node<K, V>>, free: int, root: seq<int>, pos: seq<int>, loc: map<K, int>, m: int)
    requires Inv(home, ns, free, root, pos, loc) && 0 <= m < |ns| && ns[m].Live()
    ensures home(ns[m].key.value) != m ==> m > free
  {
    var h := home(ns[m].key.value);
    OnOwnPath(home, ns, free, root, pos, loc, m);
    if h != m { LinkedFrom(ns, free, root, pos, h, m); }
  }

  lemma LinkedFrom<K, V>(ns: seq<Node<K, V>>, free: int, root: seq<int>, pos: seq<int>, i: int, m: int)
    requires Paths(ns, root, pos) && LinksAbove(ns, free) && 0 <= i < |ns| && 0 <= m < |ns|
    requires i != m && root[i] == root[m] && pos[i] >= pos[m]
    ensures m > free
    decreases pos[i]
  {
    assert Linked(ns, root, pos, i) && Linked(ns, root, pos, m);
    if ns[i].next != m { LinkedFrom(ns, free, root, pos, ns[i].next, m); }
  }

  lemma OnOwnPath<K, V>(home: K -> int, ns: seq<Node<K, V>>, free: int, root: seq<int>, pos: seq<int>, loc: map<K, int>, m: int)
    requires Inv(home, ns, free, root, pos, loc) && 0 <= m < |ns| && ns[m].Live()
    ensures var h := home(ns[m].key.value);
      |root| == |pos| == |ns| && 0 <= h < |ns| && root[h] == root[m] && pos[h] >= pos[m]
  {
  }

  /** The invariant does not depend on the stored values. */
  lemma ValueOnly<K, V>(home: K -> int, ns: seq<Node<K, V>>, free: int, root: seq<int>, pos: seq<int>, loc: map<K, int>, n: int, val: V)
    requires Inv(home, ns, free, root, pos, loc) && 0 <= n < |ns|
    ensures Inv(home, ns[n := ns[n].(val := val)], free, root, pos, loc)
  {
    hide Placed;
    SameLinks(ns, ns[n := ns[n].(val := val)], free, root, pos);
  }

  lemma ValueChange<K, V>(ns: seq<Node<K, V>>, free: int, loc: map<K, int>, n: int, val: V)
    requires Located(ns, loc) && 0 <= n < |ns|
    ensures var ns' := ns[n := ns[n].(val := val)];
      && (Dense(ns, free) ==> Dense(ns', free))
      && Located(ns', loc)
      && ContentsOf(ns', loc) == if ns[n].Live() then ContentsOf(ns, loc)[ns[n].key.value := val] else ContentsOf(ns, loc)
  {
  }
}
