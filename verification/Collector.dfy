/** The marking phase of the cycle collector: every collectable object sits on a
    doubly linked chain; marking moves what the roots reach to a second one. */
module Collector {
  import opened Common
  import opened Chains

  datatype Kind = FuncProto | OuterVariable | Array | Collectable

  /** An object and what its Mark method visits, in order. */
  datatype Item = Item(kind: Kind, refs: seq<nat>)

  /** The mark bit and the links every object carries. */
  datatype Node = Node(marked: bool, next: int, prev: int)

  // ------------------------------------------------------------- reachability

  ghost predicate Closed(g: seq<Item>) {
    forall x, i :: 0 <= x < |g| && 0 <= i < |g[x].refs| ==> g[x].refs[i] < |g|
  }

  /** The object at `x` refers to the object at `y`. */
  ghost predicate Edge(g: seq<Item>, x: nat, y: nat) {
    x < |g| && exists i :: 0 <= i < |g[x].refs| && g[x].refs[i] == y
  }

  ghost predicate Path(g: seq<Item>, p: seq<nat>) {
    p != [] && forall k :: 0 <= k < |p| - 1 ==> Edge(g, p[k], p[k + 1])
  }

  ghost predicate Reach(g: seq<Item>, x: nat, y: nat) {
    exists p :: Path(g, p) && p[0] == x && p[|p| - 1] == y
  }

  ghost predicate ReachFrom(g: seq<Item>, roots: seq<nat>, y: nat) {
    exists i :: 0 <= i < |roots| && Reach(g, roots[i], y)
  }

  lemma ReachSelf(g: seq<Item>, x: nat)
    ensures Reach(g, x, x)
  {
    assert Path(g, [x]);
  }

  lemma ReachStep(g: seq<Item>, x: nat, y: nat, z: nat)
    requires Edge(g, x, y) && Reach(g, y, z)
    ensures Reach(g, x, z)
  {
    var p :| Path(g, p) && p[0] == y && p[|p| - 1] == z;
    var q := [x] + p;
    forall k | 0 <= k < |q| - 1 ensures Edge(g, q[k], q[k + 1]) {
      if k > 0 { assert q[k] == p[k - 1] && q[k + 1] == p[k]; }
    }
    assert Path(g, q);
  }

  /** A set of marked objects that holds a start and follows every edge holds all it reaches. */
  lemma {:induction false} ClosedUnderPath(g: seq<Item>, p: seq<nat>, nodes: seq<Node>)
    requires Closed(g) && Path(g, p) && |nodes| == |g| && p[0] < |g| && nodes[p[0]].marked
    requires forall x: nat, y: nat :: x < |g| && nodes[x].marked && Edge(g, x, y) ==> y < |g| && nodes[y].marked
    ensures p[|p| - 1] < |g| && nodes[p[|p| - 1]].marked
    decreases |p|
  {
    if |p| > 1 {
      assert Edge(g, p[0], p[1]);
      forall k | 0 <= k < |p[1..]| - 1 ensures Edge(g, p[1..][k], p[1..][k + 1]) { assert Edge(g, p[k + 1], p[k + 2]); }
      ClosedUnderPath(g, p[1..], nodes);
    }
  }

  // ------------------------------------------------------------------- chains

  ghost predicate Linked(nodes: seq<Node>, chain: seq<nat>, k: nat)
    requires k < |chain| && chain[k] < |nodes|
  {
    nodes[chain[k]].next == At(chain, k + 1) && nodes[chain[k]].prev == At(chain, k - 1)
  }

  /** `head` starts a doubly linked list through exactly the objects of `chain`. */
  ghost predicate List(nodes: seq<Node>, head: int, chain: seq<nat>) {
    && head == At(chain, 0)
    && (forall k :: 0 <= k < |chain| ==> chain[k] < |nodes|)
    && (forall k :: 0 <= k < |chain| ==> Linked(nodes, chain, k))
    && Apart(chain)
  }

  /** The same links on every object of the chain. */
  ghost predicate SameLinks(a: seq<Node>, b: seq<Node>, chain: seq<nat>) {
    |a| == |b|
    && forall k :: 0 <= k < |chain| && chain[k] < |a| ==>
      b[chain[k]].next == a[chain[k]].next && b[chain[k]].prev == a[chain[k]].prev
  }

  lemma ListKept(a: seq<Node>, b: seq<Node>, head: int, chain: seq<nat>)
    requires List(a, head, chain) && SameLinks(a, b, chain)
    ensures List(b, head, chain)
  {
    forall k | 0 <= k < |chain| ensures Linked(b, chain, k) { assert Linked(a, chain, k); }
  }

  function Unlinked(nodes: seq<Node>, c: nat): (r: seq<Node>)
    requires c < |nodes| && nodes[c].prev < |nodes| && nodes[c].next < |nodes|
    ensures |r| == |nodes|
  {
    var p, n := nodes[c].prev, nodes[c].next;
    var a := if p >= 0 then nodes[p := nodes[p].(next := n)] else nodes;
    var b := if n >= 0 then a[n := a[n].(prev := p)] else a;
    b[c := b[c].(next := -1, prev := -1)]
  }

  lemma RemoveLinked(nodes: seq<Node>, head: int, chain: seq<nat>, k: nat, j: nat)
    requires List(nodes, head, chain) && k < |chain| && j < |chain| - 1
    requires nodes[chain[k]].prev == At(chain, k - 1) && nodes[chain[k]].next == At(chain, k + 1)
    ensures var d := Dropped(chain, k); d[j] < |nodes| && Linked(Unlinked(nodes, chain[k]), d, j)
  {
    var i := if j < k then j else j + 1;
    assert Dropped(chain, k)[j] == chain[i] && Linked(nodes, chain, i);
  }

  /** Removal of the `k`th object leaves the rest linked in the same order. */
  lemma RemoveKeeps(nodes: seq<Node>, head: int, chain: seq<nat>, k: nat)
    requires List(nodes, head, chain) && k < |chain|
    ensures var c := chain[k];
            && nodes[c].prev < |nodes| && nodes[c].next < |nodes|
            && List(Unlinked(nodes, c), if nodes[c].prev >= 0 then head else nodes[c].next, Dropped(chain, k))
  {
    var c := chain[k];
    assert Linked(nodes, chain, k);
    hide Unlinked, Linked;
    var after, d := Unlinked(nodes, c), Dropped(chain, k);
    DroppedHas(chain, k, c);
    forall j | 0 <= j < |d| ensures d[j] < |after| && Linked(after, d, j) { RemoveLinked(nodes, head, chain, k, j); }
  }

  lemma AddKeeps(nodes: seq<Node>, head: int, chain: seq<nat>, c: nat)
    requires List(nodes, head, chain) && c < |nodes| && !Has(chain, c)
    ensures head < |nodes| && List(Pushed(nodes, head, c), c, [c] + chain)
  {
    var after, d := Pushed(nodes, head, c), [c] + chain;
    forall j | 0 <= j < |d| ensures d[j] < |after| && Linked(after, d, j) {
      if j > 0 { assert d[j] == chain[j - 1] && Linked(nodes, chain, j - 1); assert Has(chain, chain[j - 1]); }
    }
    forall i, j | 0 <= i < j < |d| ensures d[i] != d[j] { assert Has(chain, chain[j - 1]); }
  }

  function Pushed(nodes: seq<Node>, head: int, c: nat): (r: seq<Node>)
    requires c < |nodes| && head < |nodes|
    ensures |r| == |nodes|
  {
    var a := nodes[c := nodes[c].(prev := -1, next := head)];
    if head >= 0 then a[head := a[head].(prev := c)] else a
  }

  // ------------------------------------------------------------------ marking

  /** The two chains: `a` what is still on the collector's chain, `b` what has been moved. */
  datatype Pair = Pair(nodes: seq<Node>, gc: int, t: int, a: seq<nat>, b: seq<nat>)

  /** Every object is on exactly one chain, and a moved one is marked. */
  ghost predicate Split(g: seq<Item>, s: Pair) {
    && |s.nodes| == |g| && List(s.nodes, s.gc, s.a) && List(s.nodes, s.t, s.b)
    && (forall y: nat :: y < |g| ==> Has(s.a, y) || Has(s.b, y))
    && (forall y: nat :: Has(s.b, y) ==> y < |g| && s.nodes[y].marked && !Has(s.a, y))
  }

  /** Marked in `s'` but not in `s`. */
  ghost predicate Fresh(s: Pair, s': Pair, y: nat) {
    y < |s.nodes| && y < |s'.nodes| && s'.nodes[y].marked && !s.nodes[y].marked
  }

  /** From `s` to `s'` only objects that `roots` reach were marked; each was moved
      and each object it refers to is marked. */
  ghost predicate Advanced(g: seq<Item>, s: Pair, s': Pair, roots: seq<nat>) {
    && |s'.nodes| == |s.nodes| == |g|
    && (forall y: nat :: y < |s.nodes| && s.nodes[y].marked ==> s'.nodes[y].marked)
    && (forall y: nat :: Has(s'.b, y) <==> Has(s.b, y) || Fresh(s, s', y))
    && (forall y: nat :: Fresh(s, s', y) ==> ReachFrom(g, roots, y))
    && (forall y: nat, z: nat :: Fresh(s, s', y) && Edge(g, y, z) ==> z < |g| && s'.nodes[z].marked)
  }

  ghost predicate AllMarked(s: Pair, roots: seq<nat>) {
    forall i :: 0 <= i < |roots| ==> roots[i] < |s.nodes| && s.nodes[roots[i]].marked
  }

  lemma AdvancedNone(g: seq<Item>, s: Pair)
    requires |s.nodes| == |g|
    ensures Advanced(g, s, s, []) && AllMarked(s, [])
  {
  }

  /** One more root. */
  lemma AdvancedMore(g: seq<Item>, s: Pair, m: Pair, s': Pair, roots: seq<nat>, r: nat)
    requires Advanced(g, s, m, roots) && Advanced(g, m, s', [r]) && AllMarked(m, roots) && AllMarked(s', [r])
    ensures Advanced(g, s, s', roots + [r]) && AllMarked(s', roots + [r])
  {
    var all := roots + [r];
    forall y: nat | Fresh(s, s', y) ensures ReachFrom(g, all, y) {
      if Fresh(s, m, y) {
        var i :| 0 <= i < |roots| && Reach(g, roots[i], y);
        assert all[i] == roots[i];
      } else {
        assert Fresh(m, s', y);
        var i :| 0 <= i < |[r]| && Reach(g, [r][i], y);
        assert all[|roots|] == r;
      }
    }
    forall y: nat, z: nat | Fresh(s, s', y) && Edge(g, y, z) ensures z < |g| && s'.nodes[z].marked {
      if Fresh(s, m, y) { assert m.nodes[z].marked; } else { assert Fresh(m, s', y); }
    }
    forall y: nat ensures Has(s'.b, y) <==> Has(s.b, y) || Fresh(s, s', y) {
      assert Fresh(s, s', y) <==> Fresh(s, m, y) || Fresh(m, s', y);
    }
    forall i | 0 <= i < |all| ensures all[i] < |s'.nodes| && s'.nodes[all[i]].marked {
      if i < |roots| { assert m.nodes[roots[i]].marked; } else { assert [r][0] == r; }
    }
  }

  /** `x` is marked and then, once all it refers to is marked, moved. */
  lemma AdvancedSelf(g: seq<Item>, s: Pair, m: Pair, e: Pair, s': Pair, x: nat)
    requires Closed(g) && x < |g| == |s.nodes| && !s.nodes[x].marked
    requires m == s.(nodes := s.nodes[x := s.nodes[x].(marked := true)])
    requires Advanced(g, m, e, g[x].refs) && AllMarked(e, g[x].refs)
    requires |s'.nodes| == |e.nodes| && forall y :: 0 <= y < |e.nodes| ==> s'.nodes[y].marked == e.nodes[y].marked
    requires forall y: nat :: Has(s'.b, y) <==> Has(e.b, y) || y == x
    ensures Advanced(g, s, s', [x]) && AllMarked(s', [x])
  {
    forall y: nat | Fresh(s, s', y) ensures ReachFrom(g, [x], y) {
      assert [x][0] == x;
      if y == x { ReachSelf(g, x); } else {
        assert Fresh(m, e, y);
        var i :| 0 <= i < |g[x].refs| && Reach(g, g[x].refs[i], y);
        ReachStep(g, x, g[x].refs[i], y);
      }
    }
    forall y: nat, z: nat | Fresh(s, s', y) && Edge(g, y, z) ensures z < |g| && s'.nodes[z].marked {
      if y == x {
        var i :| 0 <= i < |g[x].refs| && g[x].refs[i] == z;
      } else {
        assert Fresh(m, e, y);
      }
    }
    forall y: nat ensures Has(s'.b, y) <==> Has(s.b, y) || Fresh(s, s', y) {
      assert y != x ==> (Fresh(s, s', y) <==> Fresh(m, e, y));
      assert Fresh(s, s', x);
    }
  }

  /** Setting a mark bit changes neither chain. */
  lemma MarkedSplit(g: seq<Item>, s: Pair, x: nat)
    requires Split(g, s) && x < |g|
    ensures Split(g, s.(nodes := s.nodes[x := s.nodes[x].(marked := true)]))
  {
    var nodes := s.nodes[x := s.nodes[x].(marked := true)];
    ListKept(s.nodes, nodes, s.gc, s.a);
    ListKept(s.nodes, nodes, s.t, s.b);
  }

  ghost function MovedTo(s: Pair, x: nat, k: nat): Pair
    requires k < |s.a| && s.a[k] == x < |s.nodes| && s.nodes[x].prev < |s.nodes| && s.nodes[x].next < |s.nodes| && s.t < |s.nodes|
  {
    Pair(Pushed(Unlinked(s.nodes, x), s.t, x), if s.nodes[x].prev >= 0 then s.gc else s.nodes[x].next, x, Dropped(s.a, k), [x] + s.b)
  }

  /** Moving a marked object from one chain to the other keeps both well formed. */
  lemma MoveKeeps(g: seq<Item>, s: Pair, x: nat, k: nat)
    requires Split(g, s) && k < |s.a| && s.a[k] == x < |g| && s.nodes[x].marked
    ensures s.nodes[x].prev < |s.nodes| && s.nodes[x].next < |s.nodes| && s.t < |s.nodes|
    ensures Split(g, MovedTo(s, x, k))
    ensures forall y: nat :: Has(MovedTo(s, x, k).b, y) <==> Has(s.b, y) || y == x
    ensures forall y :: 0 <= y < |s.nodes| ==> MovedTo(s, x, k).nodes[y].marked == s.nodes[y].marked
  {
    hide List, Has, Unlinked, Pushed, SameLinks, Dropped;
    ListAt(s.nodes, s.gc, s.a, k);
    RemoveKeeps(s.nodes, s.gc, s.a, k);
    var mid := Unlinked(s.nodes, x);
    AwayFrom(s.nodes, s.gc, s.a, k, s.b);
    ListKept(s.nodes, mid, s.t, s.b);
    AddKeeps(mid, s.t, s.b, x);
    var r := MovedTo(s, x, k);
    MoveMarks(s.nodes, x, s.t);
    forall y: nat ensures Has(r.a, y) <==> Has(s.a, y) && y != x { DroppedHas(s.a, k, y); }
    PushAway(mid, s.t, s.b, x, r.a);
    ListKept(mid, r.nodes, r.gc, r.a);
    forall y: nat ensures Has(r.b, y) <==> Has(s.b, y) || y == x { ConsHas(s.b, x, y); }
  }

  lemma ListAt(nodes: seq<Node>, head: int, chain: seq<nat>, k: nat)
    requires List(nodes, head, chain) && k < |chain|
    ensures Has(chain, chain[k]) && chain[k] < |nodes|
    ensures Apart(chain)
  {
  }

  lemma MoveMarks(nodes: seq<Node>, x: nat, head: int)
    requires x < |nodes| && nodes[x].prev < |nodes| && nodes[x].next < |nodes| && head < |nodes|
    ensures forall y :: 0 <= y < |nodes| ==> Pushed(Unlinked(nodes, x), head, x)[y].marked == nodes[y].marked
  {
  }

  /** Unlinking touches only objects of its own chain. */
  lemma AwayFrom(nodes: seq<Node>, head: int, chain: seq<nat>, k: nat, other: seq<nat>)
    requires List(nodes, head, chain) && k < |chain| && forall y: nat :: Has(other, y) ==> !Has(chain, y)
    requires nodes[chain[k]].prev < |nodes| && nodes[chain[k]].next < |nodes|
    ensures SameLinks(nodes, Unlinked(nodes, chain[k]), other)
  {
    assert Linked(nodes, chain, k);
    forall j | 0 <= j < |other| ensures other[j] != chain[k] && other[j] != At(chain, k - 1) && other[j] != At(chain, k + 1) {
      assert Has(other, other[j]);
      assert Has(chain, chain[k]);
      if 0 <= k - 1 { assert Has(chain, chain[k - 1]); }
      if k + 1 < |chain| { assert Has(chain, chain[k + 1]); }
    }
  }

  /** Pushing touches only the pushed object and its own chain. */
  lemma PushAway(nodes: seq<Node>, head: int, chain: seq<nat>, x: nat, other: seq<nat>)
    requires List(nodes, head, chain) && x < |nodes| && head < |nodes|
    requires forall y: nat :: Has(other, y) ==> y != x && !Has(chain, y)
    ensures SameLinks(nodes, Pushed(nodes, head, x), other)
  {
    forall j | 0 <= j < |other| ensures other[j] != x && other[j] != head {
      assert Has(other, other[j]);
      if chain != [] { assert Has(chain, chain[0]); }
    }
  }

  ghost function White(nodes: seq<Node>): set<int> {
    set y | 0 <= y < |nodes| && !nodes[y].marked
  }

  lemma WhiteShrinks(a: seq<Node>, b: seq<Node>)
    requires |a| == |b| && forall y :: 0 <= y < |a| && a[y].marked ==> b[y].marked
    ensures |White(b)| <= |White(a)|
    ensures forall x :: 0 <= x < |a| && !a[x].marked && b[x].marked ==> |White(b)| < |White(a)|
  {
    SubsetSize(White(b), White(a));
    forall x | 0 <= x < |a| && !a[x].marked && b[x].marked ensures |White(b)| < |White(a)| {
      SubsetSize(White(b), White(a) - {x});
    }
  }

  /** With no object left half done, what is marked is what the roots reach. */
  lemma MarkedIsReached(g: seq<Item>, s: Pair, s': Pair, roots: seq<nat>)
    requires Closed(g) && Advanced(g, s, s', roots) && AllMarked(s', roots)
    requires forall y :: 0 <= y < |g| ==> !s.nodes[y].marked
    ensures forall y: nat :: y < |g| ==> (s'.nodes[y].marked <==> ReachFrom(g, roots, y))
  {
    forall x: nat, y: nat | x < |g| && s'.nodes[x].marked && Edge(g, x, y) ensures y < |g| && s'.nodes[y].marked {
      assert Fresh(s, s', x);
    }
    forall y: nat | y < |g| && ReachFrom(g, roots, y) ensures s'.nodes[y].marked {
      var i :| 0 <= i < |roots| && Reach(g, roots[i], y);
      var p :| Path(g, p) && p[0] == roots[i] && p[|p| - 1] == y;
      ClosedUnderPath(g, p, s'.nodes);
    }
    forall y: nat | y < |g| && s'.nodes[y].marked ensures ReachFrom(g, roots, y) { assert Fresh(s, s', y); }
  }

  class SharedState {
    var graph: seq<Item>
    var nodes: seq<Node>
    var gcchain: int
    var tchain: int
    ghost var a: seq<nat>
    ghost var b: seq<nat>

    ghost function Now(): Pair
      reads this
    {
      Pair(nodes, gcchain, tchain, a, b)
    }

    ghost predicate Valid()
      reads this
    {
      Closed(graph) && Split(graph, Now())
    }

    /** Between collections: one chain with every object on it, no mark. */
    ghost predicate Quiet()
      reads this
    {
      && Closed(graph) && |nodes| == |graph| && List(nodes, gcchain, a)
      && (forall y: nat :: y < |graph| ==> Has(a, y))
      && (forall y :: 0 <= y < |nodes| ==> !nodes[y].marked)
    }

    /** Takes `c` off the collector's chain. */
    method RemoveFromChain(c: nat)
      requires c < |nodes| && nodes[c].prev < |nodes| && nodes[c].next < |nodes|
      modifies this`nodes, this`gcchain
      ensures nodes == Unlinked(old(nodes), c)
      ensures gcchain == if old(nodes)[c].prev >= 0 then old(gcchain) else old(nodes)[c].next
    {
      var p, n := nodes[c].prev, nodes[c].next;
      if p >= 0 { nodes := nodes[p := nodes[p].(next := n)]; } else { gcchain := n; }
      if n >= 0 { nodes := nodes[n := nodes[n].(prev := p)]; }
      nodes := nodes[c := nodes[c].(next := -1, prev := -1)];
    }

    /** Puts `c` in front of the chain that starts at `head`; the chain then starts at `c`. */
    method AddToChain(head: int, c: nat)
      requires c < |nodes| && head < |nodes|
      modifies this`nodes
      ensures nodes == Pushed(old(nodes), head, c)
    {
      nodes := nodes[c := nodes[c].(prev := -1, next := head)];
      if head >= 0 { nodes := nodes[head := nodes[head].(prev := c)]; }
    }

    /** Marks `x` and everything it leads to that was not marked before, moving each object
        once all it refers to has been visited. */
    method Mark(x: nat)
      requires Valid() && x < |graph|
      modifies this`nodes, this`gcchain, this`tchain, this`a, this`b
      ensures Valid() && Advanced(graph, old(Now()), Now(), [x]) && AllMarked(Now(), [x])
      decreases |White(nodes)|
    {
      hide Split, Advanced, AllMarked;
      ghost var s := Now();
      SplitSize(graph, s);
      if nodes[x].marked {
        AlreadyMarked(graph, s, x);
        return;
      }
      NotMoved(graph, s, x);
      MarkedSplit(graph, s, x);
      nodes := nodes[x := nodes[x].(marked := true)];
      ghost var m := Now();
      WhiteShrinks(s.nodes, m.nodes);
      assert |White(nodes)| < |White(s.nodes)|;
      AdvancedNone(graph, m);
      for i := 0 to |graph[x].refs|
        invariant Valid() && Advanced(graph, m, Now(), graph[x].refs[..i]) && AllMarked(Now(), graph[x].refs[..i])
        invariant |White(nodes)| < |White(s.nodes)|
      {
        ghost var e := Now();
        Mark(graph[x].refs[i]);
        AdvancedGrows(graph, e, Now(), [graph[x].refs[i]]);
        WhiteShrinks(e.nodes, nodes);
        AdvancedMore(graph, m, e, Now(), graph[x].refs[..i], graph[x].refs[i]);
        assert graph[x].refs[..i + 1] == graph[x].refs[..i] + [graph[x].refs[i]];
      }
      assert graph[x].refs[..|graph[x].refs|] == graph[x].refs;
      ghost var e := Now();
      SplitSize(graph, e);
      ghost var k := StillThere(graph, m, e, graph[x].refs, x);
      MoveKeeps(graph, e, x, k);
      RemoveFromChain(x);
      AddToChain(tchain, x);
      tchain := x;
      a := Dropped(a, k);
      b := [x] + b;
      AdvancedSelf(graph, s, m, e, Now(), x);
    }

    /** Marks from every root: afterwards the second chain holds exactly the objects the roots
        reach and the first exactly the others. */
    method RunMark(roots: seq<nat>)
      requires Quiet() && tchain == -1 && b == []
      requires forall i :: 0 <= i < |roots| ==> roots[i] < |graph|
      modifies this`nodes, this`gcchain, this`tchain, this`a, this`b
      ensures Valid()
      ensures forall y: nat :: y < |graph| ==> (nodes[y].marked <==> ReachFrom(graph, roots, y))
      ensures forall y: nat :: Has(b, y) <==> y < |graph| && ReachFrom(graph, roots, y)
      ensures forall y: nat :: Has(a, y) <==> y < |graph| && !ReachFrom(graph, roots, y)
    {
      hide Split, Advanced, AllMarked, List, Has, ReachFrom;
      ghost var s := Now();
      QuietSplit(graph, s);
      AdvancedNone(graph, s);
      assert roots[..0] == [];
      for i := 0 to |roots|
        invariant Valid() && Advanced(graph, s, Now(), roots[..i]) && AllMarked(Now(), roots[..i])
      {
        ghost var e := Now();
        Mark(roots[i]);
        AdvancedMore(graph, s, e, Now(), roots[..i], roots[i]);
        assert roots[..i + 1] == roots[..i] + [roots[i]];
      }
      assert roots[..|roots|] == roots;
      MarkedIsReached(graph, s, Now(), roots);
      Sorted(graph, s, Now(), roots);
    }

    /** A new array joins the chain that starts at `gcchain`. */
    method CreateArray() returns (r: nat)
      requires |nodes| == |graph| && gcchain < |nodes|
      modifies this`graph, this`nodes, this`gcchain
      ensures r == |old(graph)| == gcchain && graph == old(graph) + [Item(Array, [])]
      ensures nodes == Pushed(old(nodes) + [Node(false, -1, -1)], old(gcchain), r)
    {
      r := |graph|;
      graph := graph + [Item(Array, [])];
      nodes := nodes + [Node(false, -1, -1)];
      AddToChain(gcchain, r);
      gcchain := r;
    }

    method Append(r: nat, t: nat)
      requires r < |graph|
      modifies this`graph
      ensures graph == old(graph)[r := old(graph)[r].(refs := old(graph)[r].refs + [t])]
    {
      graph := graph[r := graph[r].(refs := graph[r].refs + [t])];
    }

    /** Lists the objects of the chain at `head` that scripts can name into the array
        `r`; gives their number and the last object of the chain. */
    method ListInto(r: nat, head: int, ghost chain: seq<nat>) returns (n: nat, last: int)
      requires |nodes| == |graph| && r < |graph| && graph[r] == Item(Array, []) && List(nodes, head, chain) && !Has(chain, r) && chain != []
      modifies this`graph
      ensures n == |chain| && last == chain[n - 1]
      ensures graph == old(graph)[r := Item(Array, Nameable(old(graph), chain))]
    {
      n, last := 0, -1;
      var t := head;
      while t != -1
        invariant n <= |chain| && t == At(chain, n) && last == At(chain, n - 1)
        invariant graph == old(graph)[r := Item(Array, Nameable(old(graph), chain[..n]))]
        decreases |chain| - n
      {
        assert Linked(nodes, chain, n) && Has(chain, chain[n]);
        last := t;
        if graph[t].kind != FuncProto && graph[t].kind != OuterVariable {
          Append(r, t);
        }
        NameableNext(old(graph), chain, n);
        t := nodes[t].next;
        n := n + 1;
      }
      assert chain[..n] == chain;
    }

    /** Objects nothing reaches go back in front of the chain, and into a new array if there are any. */
    method ResurrectUnreachable(roots: seq<nat>) returns (n: nat, ret: Option<nat>)
      requires Quiet() && tchain == -1 && b == []
      requires forall i :: 0 <= i < |roots| ==> roots[i] < |graph|
      modifies this
      ensures Quiet() && b == [] && tchain == -1
      ensures ret.None? <==> forall y: nat :: y < |old(graph)| ==> ReachFrom(old(graph), roots, y)
      ensures ret.None? ==> graph == old(graph)
      ensures n == |Unreached(old(graph), roots)|
      ensures ret.Some? ==> ret.value == |old(graph)| && |graph| == |old(graph)| + 1
      ensures ret.Some? ==> graph[..|old(graph)|] == old(graph) && Listed(old(graph), roots, graph[ret.value])
    {
      hide Split, List, Has, ReachFrom, Closed, Listed;
      RunMark(roots);
      ghost var dead := a;
      SplitLists(graph, Now());
      EmptyExactly(dead);
      ChainSize(dead, Unreached(graph, roots));
      n, ret := 0, None;
      if gcchain != -1 {
        var r: nat;
        n, r := Rejoin(roots);
        ret := Some(r);
      } else {
        gcchain := tchain;
        a := b;
      }
      b, tchain := [], -1;
      UnMarkAll(a);
    }

    /** The unreached objects, the array that lists them and the reached objects become one chain. */
    method Rejoin(ghost roots: seq<nat>) returns (n: nat, r: nat)
      requires Closed(graph) && |nodes| == |graph| && List(nodes, gcchain, a) && List(nodes, tchain, b) && tchain < |nodes| && a != []
      requires forall y: nat :: Has(b, y) <==> y < |graph| && ReachFrom(graph, roots, y)
      requires forall y: nat :: Has(a, y) <==> y < |graph| && !ReachFrom(graph, roots, y)
      modifies this
      ensures n == |old(a)| && r == |old(graph)| && |nodes| == |graph| && b == old(b)
      ensures |graph| == |old(graph)| + 1 && graph[..|old(graph)|] == old(graph) && Listed(old(graph), roots, graph[r]) && Closed(graph)
      ensures List(nodes, gcchain, a) && forall y: nat :: y < |graph| ==> Has(a, y)
    {
      hide List, Has, ReachFrom, Closed, Nameable, Pushed;
      ghost var g, was, dead, live := graph, nodes, a, b;
      var resurrected := gcchain;
      gcchain := tchain;
      r := CreateArray();
      CreatedLists(g, roots, was, resurrected, dead, tchain, live);
      var last: int;
      n, last := ListInto(r, resurrected, dead);
      JoinKeeps(nodes, resurrected, dead, gcchain, [r] + live);
      nodes := nodes[last := nodes[last].(next := gcchain)];
      nodes := nodes[gcchain := nodes[gcchain].(prev := last)];
      gcchain := resurrected;
      a := dead + ([r] + live);
      NameableSame(g, g + [Item(Array, [])], dead);
      Distinct(was, resurrected, dead);
      ListedAll(g, roots, dead, graph[r]);
      ClosedWith(g, graph[r], roots);
      assert graph == g + [graph[r]];
      forall y: nat | y < |graph| ensures Has(a, y) { BothHas(dead, [r] + live, y); ConsHas(live, r, y); }
    }

    /** Clears the mark bit of every object on the chain. */
    method UnMarkAll(ghost chain: seq<nat>)
      requires List(nodes, gcchain, chain)
      modifies this`nodes
      ensures List(nodes, gcchain, chain) && |nodes| == |old(nodes)|
      ensures forall y: nat :: y < |nodes| ==> nodes[y] == if Has(chain, y) then old(nodes)[y].(marked := false) else old(nodes)[y]
    {
      ghost var was := nodes;
      var t := gcchain;
      ghost var k := 0;
      while t != -1
        invariant 0 <= k <= |chain| && t == At(chain, k)
        invariant Unmarked(was, nodes, chain, k)
        decreases |chain| - k
      {
        UnmarkOne(was, nodes, gcchain, chain, k);
        nodes := nodes[t := nodes[t].(marked := false)];
        t := nodes[t].next;
        k := k + 1;
      }
      UnmarkedAll(was, nodes, gcchain, chain);
    }
  }

  /** The objects of a chain that a script can be handed. */
  function Nameable(g: seq<Item>, chain: seq<nat>): seq<nat> {
    if chain == [] then []
    else
      var t := chain[|chain| - 1];
      Nameable(g, chain[..|chain| - 1]) + if t < |g| && g[t].kind != FuncProto && g[t].kind != OuterVariable then [t] else []
  }

  lemma NameableNext(g: seq<Item>, chain: seq<nat>, n: nat)
    requires n < |chain| && chain[n] < |g|
    ensures Nameable(g, chain[..n + 1]) ==
            if g[chain[n]].kind != FuncProto && g[chain[n]].kind != OuterVariable then
              Nameable(g, chain[..n]) + [chain[n]]
            else
              Nameable(g, chain[..n])
  {
    assert chain[..n + 1][..n] == chain[..n];
  }

  /** Exactly the nameable objects of the chain are listed, each once. */
  lemma {:induction false} NameableExactly(g: seq<Item>, chain: seq<nat>, x: nat)
    ensures Has(Nameable(g, chain), x) <==> Has(chain, x) && x < |g| && g[x].kind != FuncProto && g[x].kind != OuterVariable
    decreases |chain|
  {
    if chain != [] {
      var n := |chain| - 1;
      NameableExactly(g, chain[..n], x);
      SnocHas(chain[..n], chain[n], x);
      SnocHas(Nameable(g, chain[..n]), chain[n], x);
      assert chain == chain[..n] + [chain[n]];
      assert Nameable(g, chain[..n]) + [] == Nameable(g, chain[..n]);
    }
  }

  lemma {:induction false} NameableOnce(g: seq<Item>, chain: seq<nat>)
    requires Apart(chain)
    ensures Apart(Nameable(g, chain))
    decreases |chain|
  {
    if chain != [] {
      var n := |chain| - 1;
      NameableOnce(g, chain[..n]);
      NameableExactly(g, chain[..n], chain[n]);
      assert !Has(chain[..n], chain[n]);
      SnocApart(Nameable(g, chain[..n]), chain[n]);
      assert Nameable(g, chain[..n]) + [] == Nameable(g, chain[..n]);
    }
  }

  ghost predicate Unmarked(was: seq<Node>, nodes: seq<Node>, chain: seq<nat>, k: nat) {
    && |nodes| == |was| && k <= |chain|
    && (forall j :: 0 <= j < |chain| ==> chain[j] < |was|)
    && (forall j :: 0 <= j < k ==> nodes[chain[j]] == was[chain[j]].(marked := false))
    && (forall j :: k <= j < |chain| ==> nodes[chain[j]] == was[chain[j]])
    && (forall y: nat :: y < |was| && !Has(chain, y) ==> nodes[y] == was[y])
  }

  lemma UnmarkOne(was: seq<Node>, nodes: seq<Node>, head: int, chain: seq<nat>, k: nat)
    requires List(was, head, chain) && k < |chain| && Unmarked(was, nodes, chain, k)
    ensures nodes[chain[k]].next == At(chain, k + 1)
    ensures Unmarked(was, nodes[chain[k] := nodes[chain[k]].(marked := false)], chain, k + 1)
  {
    assert Linked(was, chain, k) && Has(chain, chain[k]);
  }

  lemma UnmarkedAll(was: seq<Node>, nodes: seq<Node>, head: int, chain: seq<nat>)
    requires List(was, head, chain) && Unmarked(was, nodes, chain, |chain|)
    ensures List(nodes, head, chain)
    ensures forall y: nat :: y < |nodes| ==> nodes[y] == if Has(chain, y) then was[y].(marked := false) else was[y]
  {
    ListKept(was, nodes, head, chain);
    forall y: nat | y < |nodes| ensures nodes[y] == if Has(chain, y) then was[y].(marked := false) else was[y] {
      if Has(chain, y) { var k :| 0 <= k < |chain| && chain[k] == y; }
    }
  }

  /** The array lists, each once, exactly the objects nothing reaches that scripts can name. */
  ghost predicate Listed(g: seq<Item>, roots: seq<nat>, arr: Item) {
    && arr.kind == Array
    && (forall y: nat :: Has(arr.refs, y) <==> y < |g| && !ReachFrom(g, roots, y) && g[y].kind != FuncProto && g[y].kind != OuterVariable)
    && Apart(arr.refs)
  }

  lemma ListedAll(g: seq<Item>, roots: seq<nat>, dead: seq<nat>, arr: Item)
    requires arr == Item(Array, Nameable(g, dead))
    requires forall y: nat :: Has(dead, y) <==> y < |g| && !ReachFrom(g, roots, y)
    requires Apart(dead)
    ensures Listed(g, roots, arr)
  {
    hide Has, ReachFrom;
    forall y: nat ensures Has(arr.refs, y) <==> y < |g| && !ReachFrom(g, roots, y) && g[y].kind != FuncProto && g[y].kind != OuterVariable {
      NameableExactly(g, dead, y);
    }
    NameableOnce(g, dead);
  }

  ghost function Unreached(g: seq<Item>, roots: seq<nat>): set<nat> {
    set y: nat | y < |g| && !ReachFrom(g, roots, y)
  }

  lemma {:induction false} ChainSize(chain: seq<nat>, s: set<nat>)
    requires Apart(chain)
    requires forall y: nat :: Has(chain, y) <==> y in s
    ensures |chain| == |s|
    decreases |chain|
  {
    if chain == [] {
      EmptyExactly(chain);
      assert s == {};
    } else {
      var n := |chain| - 1;
      assert chain == chain[..n] + [chain[n]];
      assert Has(chain, chain[n]);
      forall y: nat ensures Has(chain[..n], y) <==> y in s - {chain[n]} { SnocHas(chain[..n], chain[n], y); }
      ChainSize(chain[..n], s - {chain[n]});
    }
  }

  lemma EmptyExactly(chain: seq<nat>)
    ensures chain == [] <==> forall y: nat :: !Has(chain, y)
    ensures At(chain, 0) == -1 <==> chain == []
  {
    if chain != [] { assert Has(chain, chain[0]); }
  }

  lemma Distinct(nodes: seq<Node>, h: int, chain: seq<nat>)
    requires List(nodes, h, chain)
    ensures Apart(chain)
  {
  }

  lemma {:induction false} NameableSame(g: seq<Item>, h: seq<Item>, chain: seq<nat>)
    requires g <= h && forall y: nat :: Has(chain, y) ==> y < |g|
    ensures Nameable(h, chain) == Nameable(g, chain)
    decreases |chain|
  {
    if chain != [] {
      var n := |chain| - 1;
      assert Has(chain, chain[n]);
      forall y: nat | Has(chain[..n], y) ensures y < |g| { SnocHas(chain[..n], chain[n], y); assert chain == chain[..n] + [chain[n]]; }
      NameableSame(g, h, chain[..n]);
    }
  }

  lemma BothHas(c: seq<nat>, d: seq<nat>, y: nat)
    ensures Has(c + d, y) <==> Has(c, y) || Has(d, y)
  {
    var e := c + d;
    if Has(c, y) { var k :| 0 <= k < |c| && c[k] == y; assert e[k] == y; }
    if Has(d, y) { var k :| 0 <= k < |d| && d[k] == y; assert e[|c| + k] == y; }
    if Has(e, y) {
      var k :| 0 <= k < |e| && e[k] == y;
      if k < |c| { assert c[k] == y; } else { assert d[k - |c|] == y; }
    }
  }

  lemma ClosedWith(g: seq<Item>, arr: Item, roots: seq<nat>)
    requires Closed(g) && Listed(g, roots, arr)
    ensures Closed(g + [arr])
  {
    var h := g + [arr];
    forall x, i | 0 <= x < |h| && 0 <= i < |h[x].refs| ensures h[x].refs[i] < |h| {
      if x == |g| { assert Has(arr.refs, arr.refs[i]); } else { assert h[x] == g[x]; }
    }
  }

  /** The new array goes in front of the reached objects; the others are not touched. */
  lemma CreatedLists(g: seq<Item>, roots: seq<nat>, was: seq<Node>, h: int, dead: seq<nat>, t: int, live: seq<nat>)
    requires |was| == |g| && List(was, h, dead) && List(was, t, live) && t < |was|
    requires forall y: nat :: Has(live, y) <==> y < |g| && ReachFrom(g, roots, y)
    requires forall y: nat :: Has(dead, y) <==> y < |g| && !ReachFrom(g, roots, y)
    ensures var r := |g|;
            var nodes := Pushed(was + [Node(false, -1, -1)], t, r);
            && List(nodes, h, dead) && List(nodes, r, [r] + live)
            && !Has(dead, r) && (forall y: nat :: Has(dead, y) ==> !Has([r] + live, y))
  {
    hide List, Has, ReachFrom, SameLinks, Pushed;
    var r := |g|;
    var more := was + [Node(false, -1, -1)];
    Longer(was, more, h, dead);
    Longer(was, more, t, live);
    AddKeeps(more, t, live, r);
    PushAway(more, t, live, r, dead);
    ListKept(more, Pushed(more, t, r), h, dead);
    forall y: nat | Has(dead, y) ensures !Has([r] + live, y) { ConsHas(live, r, y); }
  }

  lemma Longer(was: seq<Node>, more: seq<Node>, h: int, chain: seq<nat>)
    requires was <= more && List(was, h, chain)
    ensures List(more, h, chain)
  {
    forall k | 0 <= k < |chain| ensures chain[k] < |more| && Linked(more, chain, k) { assert Linked(was, chain, k); }
  }

  lemma SplitLists(g: seq<Item>, s: Pair)
    requires Split(g, s)
    ensures |s.nodes| == |g| && List(s.nodes, s.gc, s.a) && List(s.nodes, s.t, s.b)
    ensures s.gc == At(s.a, 0) && s.t == At(s.b, 0) && s.t < |g| && s.gc < |g|
    ensures Apart(s.a)
  {
  }

  /** Linking the last object of one list to the first of another joins them. */
  lemma JoinKeeps(nodes: seq<Node>, h: int, c: seq<nat>, h': int, d: seq<nat>)
    requires List(nodes, h, c) && List(nodes, h', d) && c != [] && d != [] && forall y: nat :: Has(c, y) ==> !Has(d, y)
    ensures var last := c[|c| - 1];
            && last < |nodes| && 0 <= h' < |nodes| && last != h'
            && var m := nodes[last := nodes[last].(next := h')];
            List(m[h' := m[h'].(prev := last)], h, c + d)
  {
    var last := c[|c| - 1];
    assert Has(c, last) && Has(d, d[0]);
    var m := nodes[last := nodes[last].(next := h')];
    var r, e := m[h' := m[h'].(prev := last)], c + d;
    forall k | 0 <= k < |e| ensures e[k] < |r| && Linked(r, e, k) {
      if k < |c| {
        assert Linked(nodes, c, k) && Has(c, c[k]);
      } else {
        assert Linked(nodes, d, k - |c|) && Has(d, d[k - |c|]);
      }
    }
    forall i, j | 0 <= i < j < |e| ensures e[i] != e[j] {
      if i < |c| <= j { assert Has(c, c[i]) && Has(d, d[j - |c|]); }
    }
  }

  lemma QuietSplit(g: seq<Item>, s: Pair)
    requires |s.nodes| == |g| && List(s.nodes, s.gc, s.a) && s.t == -1 && s.b == []
    requires forall y: nat :: y < |g| ==> Has(s.a, y)
    ensures Split(g, s)
  {
  }

  lemma SplitSize(g: seq<Item>, s: Pair)
    requires Split(g, s)
    ensures |s.nodes| == |g|
  {
  }

  lemma NotMoved(g: seq<Item>, s: Pair, x: nat)
    requires Split(g, s) && x < |g| && !s.nodes[x].marked
    ensures !Has(s.b, x)
  {
  }

  lemma AlreadyMarked(g: seq<Item>, s: Pair, x: nat)
    requires Split(g, s) && x < |g| && s.nodes[x].marked
    ensures Advanced(g, s, s, [x]) && AllMarked(s, [x])
  {
  }

  lemma AdvancedGrows(g: seq<Item>, s: Pair, s': Pair, roots: seq<nat>)
    requires Advanced(g, s, s', roots)
    ensures |s'.nodes| == |s.nodes| && forall y :: 0 <= y < |s.nodes| && s.nodes[y].marked ==> s'.nodes[y].marked
  {
  }

  /** An object under way is still on the first chain. */
  lemma StillThere(g: seq<Item>, m: Pair, e: Pair, roots: seq<nat>, x: nat) returns (k: nat)
    requires Split(g, m) && Split(g, e) && Advanced(g, m, e, roots) && x < |g| && m.nodes[x].marked && !Has(m.b, x)
    ensures k < |e.a| && e.a[k] == x && e.nodes[x].marked
  {
    assert !Fresh(m, e, x);
    assert Has(e.a, x);
    k :| 0 <= k < |e.a| && e.a[k] == x;
  }

  lemma Sorted(g: seq<Item>, s: Pair, s': Pair, roots: seq<nat>)
    requires Split(g, s') && |s.nodes| == |g| && s.b == [] && Advanced(g, s, s', roots)
    requires forall y :: 0 <= y < |g| ==> !s.nodes[y].marked
    ensures forall y: nat :: Has(s'.b, y) <==> y < |g| && s'.nodes[y].marked
    ensures forall y: nat :: Has(s'.a, y) <==> y < |g| && !s'.nodes[y].marked
  {
    forall y: nat | Has(s'.a, y) ensures y < |g| {
      var k :| 0 <= k < |s'.a| && s'.a[k] == y;
    }
  }
}
