/** Small types and facts shared by the other modules. */
module Common {

  datatype Option<+T> = None | Some(value: T)

  lemma OneMoreKey<K, V>(m: map<K, V>, k: K, v: V)
    requires k !in m
    ensures |m[k := v]| == |m| + 1 && m[k := v].Keys == m.Keys + {k}
  {
    assert m[k := v].Keys == m.Keys + {k};
  }

  lemma SubsetSize<T>(a: set<T>, b: set<T>)
    requires a <= b
    ensures |a| <= |b|
  {
    assert b == a + (b - a);
  }

  /** Quotient and remainder are the only numbers of their kind. */
  lemma QuotientUnique(n: nat, d: nat, q: nat, r: nat)
    requires d >= 1 && n == q * d + r && r < d
    ensures n / d == q && n % d == r
  {
    var q', r' := n / d, n % d;
    QuotientSplit(n, d, q', r');
    QuotientSame(d, q, r, q', r');
  }

  lemma QuotientSplit(n: nat, d: nat, q: int, r: int)
    requires d >= 1 && q == n / d && r == n % d
    ensures n == q * d + r && 0 <= r < d
  {
  }

  lemma QuotientSame(d: nat, q: int, r: int, q': int, r': int)
    requires d >= 1 && 0 <= r < d && 0 <= r' < d && q * d + r == q' * d + r'
    ensures q == q'
  {
    assert (q' - q) * d == q' * d - q * d && (q - q') * d == q * d - q' * d;
    if q < q' { AtLeastOnce(q' - q, d); } else if q > q' { AtLeastOnce(q - q', d); }
  }

  lemma AtLeastOnce(x: nat, d: nat)
    requires x >= 1
    ensures x * d >= d
  {
  }

  lemma ModShift(a: nat, d: nat)
    requires d >= 1
    ensures (a + d) % d == a % d
  {
    var q, r := a / d, a % d;
    QuotientSplit(a, d, q, r);
    assert (q + 1) * d == q * d + d;
    QuotientUnique(a + d, d, q + 1, r);
  }
}
