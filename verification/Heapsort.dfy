/** Array sorting: a heap sort whose node `i` has children `2 * i` and `2 * i + 1`
    counted from zero, so that node 0 is its own child.  The comparator is user
    code: it may fail, and it may answer differently every time it is asked. */
module Heapsort {
  import opened Common

  /** What the `n`th comparison answers; None when it raises an error. */
  type Comparator<!T> = (nat, T, T) -> Option<int>

  // -------------------------------------------------------------------- order

  /** `cmp` never fails and always answers as `c`. */
  ghost predicate Agrees<T(!new)>(cmp: Comparator<T>, c: (T, T) -> int) {
    forall n: nat, x: T, y: T :: cmp(n, x, y) == Some(c(x, y))
  }

  ghost predicate Le<T>(c: (T, T) -> int, x: T, y: T) { c(x, y) <= 0 }

  /** The sign of `c` is that of a total preorder. */
  ghost predicate Preorder<T(!new)>(c: (T, T) -> int) {
    && (forall x: T, y: T :: c(x, y) > 0 ==> Le(c, y, x))
    && (forall x: T, y: T :: c(x, y) >= 0 <==> Le(c, y, x))
    && (forall x: T, y: T, z: T :: Le(c, x, y) && Le(c, y, z) ==> Le(c, x, z))
  }

  ghost predicate Ordered<T>(c: (T, T) -> int, s: seq<T>) {
    forall i, j :: 0 <= i < j < |s| ==> Le(c, s[i], s[j])
  }

  // ------------------------------------------------------------- permutations

  function Swap<T>(s: seq<T>, i: nat, j: nat): (r: seq<T>)
    requires i < |s| && j < |s|
    ensures |r| == |s|
  {
    s[i := s[j]][j := s[i]]
  }

  /** The first `n` elements rearranged, the rest as they were. */
  ghost predicate Permuted<T>(s: seq<T>, t: seq<T>, n: nat) {
    && n <= |s| == |t|
    && multiset(s[..n]) == multiset(t[..n])
    && s[n..] == t[n..]
  }

  lemma SwapPermutes<T>(s: seq<T>, i: nat, j: nat, n: nat)
    requires i < n && j < n <= |s|
    ensures Permuted(s, Swap(s, i, j), n)
  {
    var p := s[..n];
    assert Swap(s, i, j)[..n] == p[i := p[j]][j := p[i]];
  }

  lemma PermutedTrans<T>(s: seq<T>, t: seq<T>, u: seq<T>, n: nat)
    requires Permuted(s, t, n) && Permuted(t, u, n)
    ensures Permuted(s, u, n)
  {
  }

  lemma PermutedAll<T>(s: seq<T>, t: seq<T>, n: nat)
    requires Permuted(s, t, n)
    ensures multiset(s) == multiset(t)
  {
    assert s == s[..n] + s[n..] && t == t[..n] + t[n..];
  }

  /** An element of a rearranged part was in it before. */
  lemma PermutedFrom<T>(s: seq<T>, t: seq<T>, n: nat, k: nat) returns (m: nat)
    requires Permuted(s, t, n) && k < n
    ensures m < n && s[m] == t[k]
  {
    assert t[..n][k] in multiset(t[..n]);
    assert t[k] in multiset(s[..n]);
    assert t[k] in s[..n];
    m :| 0 <= m < |s[..n]| && s[..n][m] == t[k];
  }

  // -------------------------------------------------------------------- heaps

  /** Every element below a node from `low` up is at most its parent. */
  ghost predicate Heap<T>(c: (T, T) -> int, s: seq<T>, low: nat, n: nat)
    requires n <= |s|
  {
    forall j :: 1 <= j < n && low <= j / 2 ==> Le(c, s[j], s[j / 2])
  }

  /** A heap but for node `r`, whose children are still below its parent. */
  ghost predicate HeapBut<T>(c: (T, T) -> int, s: seq<T>, low: nat, n: nat, r: nat)
    requires n <= |s| && r < |s|
  {
    && (forall j :: 1 <= j < n && low <= j / 2 && j / 2 != r ==> Le(c, s[j], s[j / 2]))
    && (r > low && r / 2 >= low ==> forall j :: 1 <= j < n && j / 2 == r ==> Le(c, s[j], s[r / 2]))
  }

  /** `m` is the greatest child of `r`; node 0, its own child, may take that part. */
  ghost predicate Greatest<T>(c: (T, T) -> int, s: seq<T>, n: nat, r: nat, m: nat)
    requires n <= |s| && m < n
  {
    m / 2 == r && forall j :: 0 <= j < n && j / 2 == r ==> Le(c, s[j], s[m])
  }

  lemma SiftStep<T(!new)>(c: (T, T) -> int, s: seq<T>, low: nat, n: nat, r: nat, m: nat)
    requires Preorder(c) && n <= |s| && r < n && m < n && low <= r && r != m
    requires HeapBut(c, s, low, n, r) && Greatest(c, s, n, r, m) && c(s[r], s[m]) < 0
    ensures HeapBut(c, Swap(s, r, m), low, n, m)
  {
    var t := Swap(s, r, m);
    forall j | 1 <= j < n && low <= j / 2 && j / 2 != m ensures Le(c, t[j], t[j / 2]) {
      if j / 2 == r && j != m { assert Le(c, s[j], s[m]); }
    }
    forall j | 1 <= j < n && j / 2 == m ensures Le(c, t[j], t[m / 2]) {
      assert Le(c, s[j], s[j / 2]);
    }
  }

  lemma SiftDone<T(!new)>(c: (T, T) -> int, s: seq<T>, low: nat, n: nat, r: nat, m: nat)
    requires Preorder(c) && n <= |s| && r < n && m < n && low <= r
    requires HeapBut(c, s, low, n, r) && Greatest(c, s, n, r, m) && c(s[r], s[m]) >= 0
    ensures Heap(c, s, low, n)
  {
    forall j | 1 <= j < n && low <= j / 2 ensures Le(c, s[j], s[j / 2]) {
      if j / 2 == r { assert Le(c, s[j], s[m]) && Le(c, s[m], s[r]); }
    }
  }

  lemma SiftLeaf<T>(c: (T, T) -> int, s: seq<T>, low: nat, n: nat, r: nat)
    requires n <= |s| && r < |s| && HeapBut(c, s, low, n, r) && 2 * r >= n
    ensures Heap(c, s, low, n)
  {
  }

  lemma {:induction false} RootIsGreatest<T(!new)>(c: (T, T) -> int, s: seq<T>, n: nat, j: nat)
    requires Preorder(c) && n <= |s| && Heap(c, s, 0, n) && j < n
    ensures Le(c, s[j], s[0])
    decreases j
  {
    if j == 0 {
      assert c(s[0], s[0]) > 0 ==> Le(c, s[0], s[0]);
    } else {
      RootIsGreatest(c, s, n, j / 2);
      assert Le(c, s[j], s[j / 2]);
    }
  }

  /** The elements from `i` on are in order and no earlier element exceeds them. */
  ghost predicate Settled<T>(c: (T, T) -> int, s: seq<T>, i: nat) {
    forall p, q :: 0 <= p < q < |s| && i <= q ==> Le(c, s[p], s[q])
  }

  lemma SettledPermuted<T>(c: (T, T) -> int, s: seq<T>, t: seq<T>, i: nat)
    requires Settled(c, s, i) && Permuted(s, t, i)
    ensures Settled(c, t, i)
  {
    forall p, q | 0 <= p < q < |t| && i <= q ensures Le(c, t[p], t[q]) {
      assert t[q] == t[i..][q - i] == s[i..][q - i] == s[q];
      if p < i {
        var m := PermutedFrom(s, t, i, p);
        assert Le(c, s[m], s[q]);
      } else {
        assert t[p] == t[i..][p - i] == s[i..][p - i] == s[p];
      }
    }
  }

  /** Taking the root of a heap to its end settles one more element. */
  lemma TakeRoot<T(!new)>(c: (T, T) -> int, s: seq<T>, i: nat)
    requires Preorder(c) && 1 <= i < |s| && Heap(c, s, 0, i + 1) && Settled(c, s, i + 1)
    ensures Heap(c, Swap(s, 0, i), 1, i) && Settled(c, Swap(s, 0, i), i)
  {
    var t := Swap(s, 0, i);
    forall p, q | 0 <= p < q < |t| && i <= q ensures Le(c, t[p], t[q]) {
      if q == i {
        RootIsGreatest(c, s, i + 1, if p == 0 then i else p);
      } else if p == 0 {
        assert Le(c, s[i], s[q]);
      } else if p == i {
        assert Le(c, s[0], s[q]);
      }
    }
  }

  // --------------------------------------------------------------- operations

  /** Compares the elements at `i` and `j`, advancing the count of comparisons. */
  method Compare<T>(cmp: Comparator<T>, a: array<T>, i: nat, j: nat, clock: nat) returns (r: Option<int>, clock': nat)
    requires i < a.Length && j < a.Length
    ensures r == cmp(clock, a[i], a[j]) && clock' == clock + 1
  {
    r, clock' := cmp(clock, a[i], a[j]), clock + 1;
  }

  method SwapAt<T>(a: array<T>, i: nat, j: nat)
    requires i < a.Length && j < a.Length
    modifies a
    ensures a[..] == Swap(old(a[..]), i, j)
  {
    a[i], a[j] := a[j], a[i];
  }

  /** Which child to compare the root with; node `root` has one at `2 * root`. */
  method MaxChild<T(!new)>(cmp: Comparator<T>, a: array<T>, root: nat, bottom: int, clock: nat, ghost c: (T, T) -> int)
    returns (ok: bool, m: nat, clock': nat)
    requires 2 * root <= bottom < a.Length
    ensures ok ==> m / 2 == root && m <= bottom
    ensures Agrees(cmp, c) && Preorder(c) ==> ok && Greatest(c, a[..], bottom + 1, root, m)
  {
    ok, m, clock' := true, 2 * root, clock;
    if 2 * root == bottom {
      assert Preorder(c) ==> Le(c, a[m], a[m]);
    } else {
      var r: Option<int>;
      r, clock' := Compare(cmp, a, 2 * root, 2 * root + 1, clock);
      if r.None? { return false, m, clock'; }
      m := if r.value > 0 then 2 * root else 2 * root + 1;
      assert Preorder(c) ==> Le(c, a[m], a[m]);
    }
  }

  /** Sinks the element at `root` to its place among the elements up to `bottom`.  Whatever
      the comparator answers, this ends, and only rearranges elements of that part. */
  method SiftDown<T(!new)>(cmp: Comparator<T>, a: array<T>, root0: nat, bottom: int, clock: nat, ghost c: (T, T) -> int)
    returns (ok: bool, clock': nat)
    requires -1 <= bottom < a.Length && root0 <= a.Length
    modifies a
    ensures Permuted(old(a[..]), a[..], bottom + 1)
    ensures Agrees(cmp, c) && Preorder(c) && Heap(c, old(a[..]), root0 + 1, bottom + 1) ==> ok && Heap(c, a[..], root0, bottom + 1)
  {
    hide Agrees, Preorder, Heap, HeapBut, Greatest, Permuted;
    var root, done := root0, false;
    ok, clock' := true, clock;
    ghost var n, was := (bottom + 1) as nat, a[..];
    ghost var good := Agrees(cmp, c) && Preorder(c) && Heap(c, was, root0 + 1, n);
    PermutedSelf(was, n);
    if good && root0 < n { SiftStart(c, was, root0, n); }
    while 2 * root <= bottom && !done
      invariant Permuted(was, a[..], n) && root0 <= root <= a.Length && ok
      invariant good && done ==> Heap(c, a[..], root0, n)
      invariant good && !done && root < n ==> HeapBut(c, a[..], root0, n, root)
      invariant root < n || root == root0
      decreases !done, n - root
    {
      ghost var s := a[..];
      var m: nat;
      ok, m, clock' := MaxChild(cmp, a, root, bottom, clock', c);
      if !ok { return; }
      var r: Option<int>;
      r, clock' := Compare(cmp, a, root, m, clock');
      if good { Answers(cmp, c, clock', s[root], s[m]); }
      if r.None? { return false, clock'; }
      if r.value < 0 {
        if root == m { return false, clock'; }
        if good { SiftStep(c, s, root0, n, root, m); }
        SwapAt(a, root, m);
        SwapPermutes(s, root, m, n);
        PermutedTrans(was, s, a[..], n);
        root := m;
      } else {
        if good { SiftDone(c, s, root0, n, root, m); }
        done := true;
      }
    }
    if good && !done { SiftEnd(c, a[..], root0, n, root); }
  }

  lemma PermutedSelf<T>(s: seq<T>, n: nat)
    requires n <= |s|
    ensures Permuted(s, s, n)
  {
  }

  lemma SiftStart<T>(c: (T, T) -> int, s: seq<T>, low: nat, n: nat)
    requires low < n <= |s| && Heap(c, s, low + 1, n)
    ensures HeapBut(c, s, low, n, low)
  {
  }

  lemma SiftEnd<T>(c: (T, T) -> int, s: seq<T>, low: nat, n: nat, r: nat)
    requires n <= |s| && 2 * r >= n && low <= r && (r < n ==> HeapBut(c, s, low, n, r)) && (r < n || r == low)
    ensures Heap(c, s, low, n)
  {
    if r < n { SiftLeaf(c, s, low, n, r); }
  }

  /** A comparator that agrees with a preorder never fails and finds every element equal to itself. */
  lemma Answers<T(!new)>(cmp: Comparator<T>, c: (T, T) -> int, clock: nat, x: T, y: T)
    requires Agrees(cmp, c) && Preorder(c)
    ensures forall n: nat :: cmp(n, x, y) == Some(c(x, y))
    ensures c(x, x) == 0
  {
  }

  /** Takes the root to position `i` and repairs the heap before it. */
  method SettleOne<T(!new)>(cmp: Comparator<T>, a: array<T>, i: nat, clock: nat, ghost c: (T, T) -> int) returns (ok: bool, clock': nat)
    requires 1 <= i < a.Length
    modifies a
    ensures multiset(a[..]) == multiset(old(a[..]))
    ensures Agrees(cmp, c) && Preorder(c) && Heap(c, old(a[..]), 0, i + 1) && Settled(c, old(a[..]), i + 1) ==>
              ok && Heap(c, a[..], 0, i) && Settled(c, a[..], i)
  {
    hide Agrees, Preorder, Heap, Permuted, Settled;
    ghost var s := a[..];
    ghost var good := Agrees(cmp, c) && Preorder(c) && Heap(c, s, 0, i + 1) && Settled(c, s, i + 1);
    if good { TakeRoot(c, s, i); }
    SwapAt(a, 0, i);
    SwapPermutes(s, 0, i, a.Length);
    PermutedAll(s, a[..], a.Length);
    ghost var t := a[..];
    ok, clock' := SiftDown(cmp, a, 0, i - 1, clock, c);
    PermutedAll(t, a[..], i);
    if good { SettledPermuted(c, t, a[..], i); }
  }

  /** Sorts.  A comparator that agrees with a total preorder gives an ordered rearrangement;
      any other still ends, in bounds, with a rearrangement. */
  method Sort<T(!new)>(cmp: Comparator<T>, a: array<T>, ghost c: (T, T) -> int) returns (ok: bool)
    modifies a
    ensures multiset(a[..]) == multiset(old(a[..]))
    ensures Agrees(cmp, c) && Preorder(c) ==> ok && Ordered(c, a[..])
  {
    hide Agrees, Preorder, Heap, Permuted, Settled;
    ghost var was, good := a[..], Agrees(cmp, c) && Preorder(c);
    var clock: nat := 0;
    var i := a.Length / 2;
    NothingYet(c, was, i);
    while i >= 0
      invariant -1 <= i <= a.Length / 2 && multiset(a[..]) == multiset(was)
      invariant good ==> Heap(c, a[..], i + 1, a.Length)
    {
      ghost var s := a[..];
      ok, clock := SiftDown(cmp, a, i, a.Length - 1, clock, c);
      PermutedAll(s, a[..], a.Length);
      if !ok { return; }
      i := i - 1;
    }
    i := a.Length - 1;
    NoneSettled(c, a[..]);
    while i >= 1
      invariant -1 <= i < a.Length && (a.Length > 0 ==> i >= 0) && multiset(a[..]) == multiset(was)
      invariant good ==> Heap(c, a[..], 0, i + 1) && Settled(c, a[..], i + 1)
    {
      ok, clock := SettleOne(cmp, a, i, clock, c);
      if !ok { return; }
      i := i - 1;
    }
    ok := true;
    if good { SettledOrdered(c, a[..], i + 1); }
  }

  /** Above the middle no node has a child. */
  lemma NothingYet<T>(c: (T, T) -> int, s: seq<T>, i: nat)
    requires i == |s| / 2
    ensures Heap(c, s, i + 1, |s|)
  {
  }

  lemma NoneSettled<T>(c: (T, T) -> int, s: seq<T>)
    ensures Settled(c, s, |s|)
  {
  }

  lemma SettledOrdered<T>(c: (T, T) -> int, s: seq<T>, i: nat)
    requires Settled(c, s, i) && i <= 1
    ensures Ordered(c, s)
  {
  }
}
