/** Chains of object numbers, as following links from a head visits them. */
module Chains {

  /** The `k`th object of a chain, -1 past its ends. */
  function At(chain: seq<nat>, k: int): int {
    if 0 <= k < |chain| then chain[k] else -1
  }

  ghost predicate Has(chain: seq<nat>, x: nat) {
    exists k :: 0 <= k < |chain| && chain[k] == x
  }

  ghost predicate Apart(chain: seq<nat>) {
    forall i, j :: 0 <= i < j < |chain| ==> chain[i] != chain[j]
  }

  lemma ConsHas(chain: seq<nat>, x: nat, y: nat)
    ensures Has([x] + chain, y) <==> Has(chain, y) || y == x
  {
    var c := [x] + chain;
    assert c[0] == x;
    if Has(chain, y) { var k :| 0 <= k < |chain| && chain[k] == y; assert c[k + 1] == y; }
    if Has(c, y) && y != x { var k :| 0 <= k < |c| && c[k] == y; assert chain[k - 1] == y; }
  }

  lemma SnocHas(chain: seq<nat>, y: nat, x: nat)
    ensures Has(chain + [y], x) <==> Has(chain, x) || x == y
  {
    var c := chain + [y];
    assert c[|chain|] == y;
    if Has(chain, x) { var k :| 0 <= k < |chain| && chain[k] == x; assert c[k] == x; }
    if Has(c, x) && x != y { var k :| 0 <= k < |c| && c[k] == x; assert chain[k] == x; }
  }

  lemma ConsApart(chain: seq<nat>, x: nat)
    requires Apart(chain) && !Has(chain, x)
    ensures Apart([x] + chain)
  {
    var c := [x] + chain;
    forall i, j | 0 <= i < j < |c| ensures c[i] != c[j] { assert Has(chain, chain[j - 1]); }
  }

  lemma SnocApart(chain: seq<nat>, x: nat)
    requires Apart(chain) && !Has(chain, x)
    ensures Apart(chain + [x])
  {
    var c := chain + [x];
    forall i, j | 0 <= i < j < |c| ensures c[i] != c[j] { assert Has(chain, chain[i]) && c[i] == chain[i]; }
  }

  /** The chain without its `k`th object. */
  function Dropped(chain: seq<nat>, k: nat): seq<nat>
    requires k < |chain|
  {
    chain[..k] + chain[k + 1..]
  }

  lemma DroppedHas(chain: seq<nat>, k: nat, x: nat)
    requires k < |chain| && Apart(chain)
    ensures Has(Dropped(chain, k), x) <==> Has(chain, x) && x != chain[k]
    ensures Apart(Dropped(chain, k))
  {
    var d := Dropped(chain, k);
    if Has(chain, x) && x != chain[k] {
      var j :| 0 <= j < |chain| && chain[j] == x;
      assert d[if j < k then j else j - 1] == x;
    }
    if Has(d, x) {
      var j :| 0 <= j < |d| && d[j] == x;
      assert chain[if j < k then j else j + 1] == x;
    }
  }
}
