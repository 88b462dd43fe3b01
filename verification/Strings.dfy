/** String interning: the two hash functions, and the table that keeps one entry
    per content. */
module Strings {
  import opened Common
  import opened Chains

  type Byte = bv8
  type Text = seq<Byte>

  // ------------------------------------------------------------------ hashing

  /** A signed character widened to an unsigned short. */
  function Code(b: Byte): bv64 {
    if b < 0x80 then b as bv64 else 0xFF00 + b as bv64
  }

  function Rolled(h: bv64): bv64 { (h << 5) + (h >> 2) }

  function Stirred(h: bv64, x: bv64, c: bv64): bv64 { h ^ (x + c) }

  function Mix(h: bv64, b: Byte): bv64 { Stirred(h, Rolled(h), Code(b)) }

  function Step(n: nat): (r: nat)
    ensures r >= 1
  {
    n / 32 + 1
  }

  function Seed(n: nat): bv64 {
    (n % 0x1_0000_0000_0000_0000) as bv64
  }

  /** Every `step`th character from position `n` down. */
  function HashFrom(s: Text, n: nat, step: nat, h: bv64): bv64
    requires n <= |s| && step >= 1
    decreases n
  {
    if n < step then h else HashFrom(s, n - step, step, Mix(h, s[n - 1]))
  }

  function Hash(s: Text): bv64 {
    HashFrom(s, |s|, Step(|s|), Seed(|s|))
  }

  // ----------------------------------------------------- which characters count

  /** The characters of a text of length `n` that are mixed in, from the last one down in steps. */
  predicate Sampled(n: nat, step: nat, i: int)
    requires step >= 1
  {
    0 <= i < n && i + 1 >= step && (n - 1 - i) % step == 0
  }

  /** The one mixed in last. */
  function Lowest(n: nat, step: nat): (r: nat)
    requires 1 <= step <= n
    ensures r < n
  {
    n % step + step - 1
  }

  lemma CodeApart(b: Byte, c: Byte)
    ensures Code(b) == Code(c) ==> b == c
  {
  }

  /** What was stirred into a hash. */
  function Unstirred(h: bv64, x: bv64, m: bv64): bv64 { (h ^ m) - x }

  lemma StirredBack(h: bv64, x: bv64, c: bv64)
    ensures Unstirred(h, x, h ^ (x + c)) == c
  {
  }

  lemma StirredApart(h: bv64, x: bv64, c: bv64, d: bv64)
    ensures Stirred(h, x, c) == Stirred(h, x, d) ==> c == d
  {
    hide Unstirred;
    StirredBack(h, x, c);
    StirredBack(h, x, d);
  }

  /** Different characters mixed into one hash give different hashes. */
  lemma MixApart(h: bv64, b: Byte, c: Byte)
    ensures Mix(h, b) == Mix(h, c) ==> b == c
  {
    hide Code, Stirred, Rolled;
    CodeApart(b, c);
    StirredApart(h, Rolled(h), Code(b), Code(c));
  }

  lemma SampledTop(n: nat, step: nat)
    requires 1 <= step <= n
    ensures Sampled(n, step, n - 1)
  {
  }

  lemma SampledDown(n: nat, step: nat, i: int)
    requires 1 <= step <= n && Sampled(n - step, step, i)
    ensures Sampled(n, step, i) && i < n - 1
  {
    ModShift(n - step - 1 - i, step);
  }

  lemma LowestBase(n: nat, step: nat)
    requires 1 <= step <= n < 2 * step
    ensures Lowest(n, step) == n - 1
  {
    QuotientUnique(n, step, 1, n - step);
  }

  lemma LowestStep(n: nat, step: nat)
    requires step >= 1 && n >= 2 * step
    ensures Lowest(n, step) == Lowest(n - step, step) < n - 1
  {
    ModShift(n - step, step);
  }

  /** The hash looks at the sampled characters only. */
  lemma {:induction false} SampledDecide(s: Text, t: Text, n: nat, step: nat, h: bv64)
    requires n <= |s| && n <= |t| && step >= 1
    requires forall i :: Sampled(n, step, i) ==> s[i] == t[i]
    ensures HashFrom(s, n, step, h) == HashFrom(t, n, step, h)
    decreases n
  {
    hide Mix, Sampled;
    if n >= step {
      SampledTop(n, step);
      forall i | Sampled(n - step, step, i) ensures 0 <= i < n && s[i] == t[i] { SampledDown(n, step, i); }
      SampledDecide(s, t, n - step, step, Mix(h, s[n - 1]));
    }
  }

  /** Texts that agree in all sampled characters but the lowest have one hash exactly if they agree there too. */
  lemma {:induction false} LowestDecides(s: Text, t: Text, n: nat, step: nat, h: bv64)
    requires n <= |s| && n <= |t| && 1 <= step <= n
    requires forall i :: Sampled(n, step, i) && i != Lowest(n, step) ==> s[i] == t[i]
    ensures HashFrom(s, n, step, h) == HashFrom(t, n, step, h) <==> s[Lowest(n, step)] == t[Lowest(n, step)]
    decreases n
  {
    hide Mix, Sampled, Lowest;
    SampledTop(n, step);
    if n < 2 * step {
      LowestBase(n, step);
      MixApart(h, s[n - 1], t[n - 1]);
      HashOnce(s, n, step, h);
      HashOnce(t, n, step, h);
    } else {
      LowestStep(n, step);
      forall i | Sampled(n - step, step, i) && i != Lowest(n, step) ensures 0 <= i < n && s[i] == t[i] { SampledDown(n, step, i); }
      LowestDecides(s, t, n - step, step, Mix(h, s[n - 1]));
    }
  }

  lemma HashOnce(s: Text, n: nat, step: nat, h: bv64)
    requires n <= |s| && 1 <= step <= n < 2 * step
    ensures HashFrom(s, n, step, h) == Mix(h, s[n - 1])
  {
    hide Mix;
  }

  /** Texts of one length that agree in all sampled characters but the lowest hash alike exactly if they agree there too. */
  lemma HashApart(s: Text, t: Text)
    requires |s| == |t| > 0
    requires forall i :: Sampled(|s|, Step(|s|), i) && i != Lowest(|s|, Step(|s|)) ==> s[i] == t[i]
    ensures Hash(s) == Hash(t) <==> s[Lowest(|s|, Step(|s|))] == t[Lowest(|s|, Step(|s|))]
  {
    hide HashFrom, Sampled, Lowest;
    LowestDecides(s, t, |s|, Step(|s|), Seed(|s|));
  }

  /** Short texts that differ in the first character only have different hashes. */
  lemma FirstDecides(s: Text, t: Text)
    requires 0 < |s| == |t| < 32 && s[0] != t[0] && s[1..] == t[1..]
    ensures Hash(s) != Hash(t)
  {
    hide Hash;
    assert Step(|s|) == 1 && Lowest(|s|, 1) == 0;
    forall i | Sampled(|s|, 1, i) && i != 0 ensures s[i] == t[i] { assert s[i] == s[1..][i - 1] && t[i] == t[1..][i - 1]; }
    HashApart(s, t);
  }

  lemma MixSamples()
    ensures Mix(2, 0x62) == 0xA0 && Mix(0xA0, 0x61) == 0x1429 && Mix(1, 0xC8) == 0xFFE9
  {
  }

  lemma SeedIs(n: nat)
    requires n < 0x1_0000_0000_0000_0000
    ensures Seed(n) == n as bv64
  {
  }

  /** Two hashes in full: a text of two plain letters, and a character outside ASCII. */
  lemma HashSamples(s: Text, t: Text)
    requires s == [0x61, 0x62] && t == [0xC8]
    ensures Hash(s) == 0x1429 && Hash(t) == 0xFFE9
  {
    hide Mix, Seed;
    MixSamples();
    SeedIs(1);
    SeedIs(2);
    assert HashFrom(s, 1, 1, 0xA0) == HashFrom(s, 0, 1, 0x1429);
  }

  method HashStr(s: Text) returns (h: bv64)
    ensures h == Hash(s)
  {
    hide Mix;
    h := Seed(|s|);
    var step, n := Step(|s|), |s|;
    while n >= step
      invariant 0 <= n <= |s| && HashFrom(s, n, step, h) == Hash(s)
      decreases n
    {
      h := Mix(h, s[n - 1]);
      n := n - step;
    }
  }

  /** Hashes two strings as if they were one. */
  method HashStr2(a: Text, b: Text) returns (h: bv64)
    ensures h == Hash(a + b)
  {
    hide Mix;
    ghost var s := a + b;
    h := Seed(|a| + |b|);
    var step, n := Step(|a| + |b|), |a| + |b|;
    while n >= step
      invariant 0 <= n <= |s| && HashFrom(s, n, step, h) == Hash(s)
      decreases n
    {
      var i := n - 1 - |a|;
      if i < 0 { break; }
      assert s[n - 1] == b[i];
      h := Mix(h, b[i]);
      n := n - step;
    }
    while n >= step
      invariant 0 <= n <= |s| && (n >= step ==> n <= |a|) && HashFrom(s, n, step, h) == Hash(s)
      decreases n
    {
      assert s[n - 1] == a[n - 1];
      h := Mix(h, a[n - 1]);
      n := n - step;
    }
  }

  // -------------------------------------------------------------------- table

  datatype Str = Str(val: Text, hash: bv64)

  /** The bucket of a hash among `n`, a power of two. */
  function Slot(h: bv64, n: nat): (r: nat)
    requires n > 0
    ensures r < n
  {
    h as int % n
  }

  /** The buckets hold exactly the strings of `live`, each once and under its own hash. */
  ghost predicate Spread(heap: seq<Str>, buckets: seq<seq<nat>>, live: set<nat>) {
    && |buckets| > 0
    && (forall x :: x in live ==> x < |heap| && heap[x].hash == Hash(heap[x].val))
    && (forall b, x: nat :: 0 <= b < |buckets| && Has(buckets[b], x) ==> x in live && Slot(heap[x].hash, |buckets|) == b)
    && (forall x :: x in live ==> Has(buckets[Slot(heap[x].hash, |buckets|)], x))
    && (forall b :: 0 <= b < |buckets| ==> Apart(buckets[b]))
  }

  /** Putting a string that is not in the table in front of its bucket. */
  lemma SpreadAdd(heap: seq<Str>, buckets: seq<seq<nat>>, live: set<nat>, x: nat)
    requires Spread(heap, buckets, live) && x !in live && x < |heap| && heap[x].hash == Hash(heap[x].val)
    ensures var b := Slot(heap[x].hash, |buckets|); Spread(heap, buckets[b := [x] + buckets[b]], live + {x})
  {
    hide Slot, Hash;
    var b := Slot(heap[x].hash, |buckets|);
    var after := buckets[b := [x] + buckets[b]];
    forall y: nat ensures Has(after[b], y) <==> Has(buckets[b], y) || y == x { ConsHas(buckets[b], x, y); }
    ConsApart(buckets[b], x);
  }

  lemma SpreadDrop(heap: seq<Str>, buckets: seq<seq<nat>>, live: set<nat>, b: nat, k: nat)
    requires Spread(heap, buckets, live) && b < |buckets| && k < |buckets[b]|
    ensures Spread(heap, buckets[b := Dropped(buckets[b], k)], live - {buckets[b][k]})
  {
    hide Slot, Hash;
    var x := buckets[b][k];
    var after := buckets[b := Dropped(buckets[b], k)];
    assert Has(buckets[b], x);
    forall y: nat ensures (Has(after[b], y) <==> Has(buckets[b], y) && y != x) && Apart(after[b]) { DroppedHas(buckets[b], k, y); }
  }

  lemma SpreadMore(heap: seq<Str>, buckets: seq<seq<nat>>, live: set<nat>, s: Str)
    requires Spread(heap, buckets, live)
    ensures Spread(heap + [s], buckets, live) && |heap| !in live
  {
    hide Slot, Hash;
  }

  /** One entry per content. */
  ghost predicate Indexed(heap: seq<Str>, live: set<nat>, index: map<Text, nat>) {
    && (forall x :: x in live ==> x < |heap| && heap[x].val in index && index[heap[x].val] == x)
    && (forall t :: t in index ==> index[t] in live && index[t] < |heap| && heap[index[t]].val == t)
  }

  lemma SpreadSize(heap: seq<Str>, buckets: seq<seq<nat>>, live: set<nat>)
    requires Spread(heap, buckets, live)
    ensures |buckets| > 0
  {
  }

  lemma IndexedAdd(heap: seq<Str>, live: set<nat>, index: map<Text, nat>, s: Str)
    requires Indexed(heap, live, index) && s.val !in index
    ensures |heap| !in live && Indexed(heap + [s], live + {|heap|}, index[s.val := |heap|])
  {
  }

  lemma IndexedDrop(heap: seq<Str>, live: set<nat>, index: map<Text, nat>, x: nat)
    requires Indexed(heap, live, index) && x in live
    ensures x < |heap| && Indexed(heap, live - {x}, index - {heap[x].val})
  {
  }

  /** Where a string of the table sits. */
  lemma SpreadAt(heap: seq<Str>, buckets: seq<seq<nat>>, live: set<nat>, x: nat)
    requires Spread(heap, buckets, live) && x in live
    ensures x < |heap| && |buckets| > 0 && Has(buckets[Slot(heap[x].hash, |buckets|)], x)
  {
  }

  /** What the bucket of a position holds. */
  lemma SpreadIn(heap: seq<Str>, buckets: seq<seq<nat>>, live: set<nat>, b: nat, k: nat)
    requires Spread(heap, buckets, live) && b < |buckets| && k < |buckets[b]|
    ensures var x := buckets[b][k]; x in live && x < |heap| && Slot(heap[x].hash, |buckets|) == b && heap[x].hash == Hash(heap[x].val)
    ensures forall j :: 0 <= j < k ==> buckets[b][j] != buckets[b][k]
  {
    assert Has(buckets[b], buckets[b][k]) && Apart(buckets[b]);
  }

  lemma NotThere(heap: seq<Str>, buckets: seq<seq<nat>>, live: set<nat>, index: map<Text, nat>, t: Text)
    requires Spread(heap, buckets, live) && Indexed(heap, live, index) && |buckets| > 0
    requires forall j :: 0 <= j < |buckets[Slot(Hash(t), |buckets|)]| ==>
               buckets[Slot(Hash(t), |buckets|)][j] < |heap| && heap[buckets[Slot(Hash(t), |buckets|)][j]].val != t
    ensures t !in index
  {
    hide Hash, Slot, Spread;
    if t in index {
      SpreadAt(heap, buckets, live, index[t]);
      SpreadHash(heap, buckets, live, index[t]);
    }
  }

  lemma SpreadHash(heap: seq<Str>, buckets: seq<seq<nat>>, live: set<nat>, x: nat)
    requires Spread(heap, buckets, live) && x in live
    ensures x < |heap| && heap[x].hash == Hash(heap[x].val)
  {
  }

  lemma SpreadNone(heap: seq<Str>, n: nat)
    requires n > 0
    ensures Spread(heap, seq(n, _ => []), {})
  {
  }

  /** `done` is what lies in the buckets before `i` and the first `k` places of bucket `i`. */
  ghost predicate Moved(heap: seq<Str>, was: seq<seq<nat>>, live: set<nat>, done: set<nat>, i: nat, k: nat) {
    && done <= live
    && forall b, j :: 0 <= b < |was| && 0 <= j < |was[b]| ==> (was[b][j] in done <==> b < i || (b == i && j < k))
  }

  lemma MovedNone(heap: seq<Str>, was: seq<seq<nat>>, live: set<nat>)
    ensures Moved(heap, was, live, {}, 0, 0)
  {
  }

  lemma MovedOne(heap: seq<Str>, was: seq<seq<nat>>, live: set<nat>, done: set<nat>, i: nat, k: nat)
    requires Spread(heap, was, live) && Moved(heap, was, live, done, i, k) && i < |was| && k < |was[i]|
    ensures was[i][k] in live && was[i][k] !in done && was[i][k] < |heap|
    ensures heap[was[i][k]].hash == Hash(heap[was[i][k]].val)
    ensures Moved(heap, was, live, done + {was[i][k]}, i, k + 1)
  {
    hide Slot, Hash, Spread;
    SpreadIn(heap, was, live, i, k);
    var p := was[i][k];
    forall b, j | 0 <= b < |was| && 0 <= j < |was[b]| && !(b == i && j == k) ensures was[b][j] != p {
      SpreadIn(heap, was, live, b, j);
    }
  }

  lemma MovedBucket(heap: seq<Str>, was: seq<seq<nat>>, live: set<nat>, done: set<nat>, i: nat)
    requires i < |was| && Moved(heap, was, live, done, i, |was[i]|)
    ensures Moved(heap, was, live, done, i + 1, 0)
  {
  }

  lemma MovedAll(heap: seq<Str>, was: seq<seq<nat>>, live: set<nat>, done: set<nat>)
    requires Spread(heap, was, live) && Moved(heap, was, live, done, |was|, 0)
    ensures done == live
  {
    hide Slot, Hash;
    forall x | x in live ensures x in done {
      assert Has(was[Slot(heap[x].hash, |was|)], x);
      var j :| 0 <= j < |was[Slot(heap[x].hash, |was|)]| && was[Slot(heap[x].hash, |was|)][j] == x;
    }
  }

  class StringTable {
    var heap: seq<Str>
    var buckets: seq<seq<nat>>
    var slotused: int
    ghost var live: set<nat>
    ghost var index: map<Text, nat>

    ghost predicate Valid()
      reads this
    {
      Spread(heap, buckets, live) && Indexed(heap, live, index) && slotused == |live|
    }

    constructor ()
      ensures Valid() && index == map[]
    {
      heap, buckets, slotused := [], [[], [], [], []], 0;
      live, index := {}, map[];
    }

    /** The entry with this content in a bucket, or -1. */
    method Find(b: nat, t: Text) returns (r: int)
      requires Valid() && b < |buckets| && b == Slot(Hash(t), |buckets|)
      ensures r == if t in index then index[t] else -1
    {
      hide Hash, Slot, Spread;
      var chain := buckets[b];
      for k := 0 to |chain|
        invariant forall j :: 0 <= j < k ==> chain[j] < |heap| && heap[chain[j]].val != t
      {
        SpreadIn(heap, buckets, live, b, k);
        if heap[chain[k]].val == t { return chain[k]; }
      }
      NotThere(heap, buckets, live, index, t);
      r := -1;
    }

    /** The one entry of a content, made on first use. */
    method Add(news: Text) returns (r: nat)
      requires Valid()
      modifies this
      ensures Valid() && news in index && r == index[news]
      ensures index == old(index)[news := r] && (news in old(index) ==> index == old(index))
    {
      var h := HashStr(news);
      r := Intern(news, h);
    }

    /** The entry of a concatenation: the very entry Add would give. */
    method Concat(a: Text, b: Text) returns (r: nat)
      requires Valid()
      modifies this
      ensures Valid() && a + b in index && r == index[a + b]
      ensures index == old(index)[a + b := r] && (a + b in old(index) ==> index == old(index))
    {
      var h := HashStr2(a, b);
      r := Intern(a + b, h);
    }

    method Intern(t: Text, h: bv64) returns (r: nat)
      requires Valid() && h == Hash(t)
      modifies this
      ensures Valid() && t in index && r == index[t]
      ensures index == old(index)[t := r] && (t in old(index) ==> index == old(index))
    {
      hide Hash, Slot, Spread, Indexed;
      SpreadSize(heap, buckets, live);
      var b := Slot(h, |buckets|);
      var found := Find(b, t);
      if found >= 0 { return found; }
      r := |heap|;
      SpreadMore(heap, buckets, live, Str(t, h));
      IndexedAdd(heap, live, index, Str(t, h));
      heap := heap + [Str(t, h)];
      SpreadAdd(heap, buckets, live, r);
      buckets := buckets[b := [r] + buckets[b]];
      slotused := slotused + 1;
      live := live + {r};
      index := index[t := r];
      if slotused > |buckets| { Resize(|buckets| * 2); }
    }

    /** Moves every entry to its bucket among `size`. */
    method Resize(size: nat)
      requires Valid() && size > 0
      modifies this`buckets
      ensures Valid() && |buckets| == size
    {
      hide Hash, Slot, Spread, Indexed;
      var was := buckets;
      ghost var done: set<nat> := {};
      buckets := seq(size, _ => []);
      SpreadNone(heap, size);
      MovedNone(heap, was, live);
      for i := 0 to |was|
        invariant |buckets| == size && Spread(heap, buckets, done) && Moved(heap, was, live, done, i, 0)
      {
        for k := 0 to |was[i]|
          invariant |buckets| == size && Spread(heap, buckets, done) && Moved(heap, was, live, done, i, k)
        {
          MovedOne(heap, was, live, done, i, k);
          var p := was[i][k];
          var b := Slot(heap[p].hash, size);
          SpreadAdd(heap, buckets, done, p);
          buckets := buckets[b := [p] + buckets[b]];
          done := done + {p};
        }
        MovedBucket(heap, was, live, done, i);
      }
      MovedAll(heap, was, live, done);
    }

    /** Takes an entry out of its bucket. */
    method Remove(x: nat)
      requires Valid() && x in live
      modifies this
      ensures Valid() && index == old(index) - {old(heap)[x].val} && heap == old(heap)
    {
      hide Hash, Slot, Spread, Indexed;
      SpreadAt(heap, buckets, live, x);
      var b := Slot(heap[x].hash, |buckets|);
      IndexedDrop(heap, live, index, x);
      var k := 0;
      while buckets[b][k] != x
        invariant 0 <= k < |buckets[b]| && forall j :: 0 <= j < k ==> buckets[b][j] != x
        decreases |buckets[b]| - k
      {
        k := k + 1;
      }
      SpreadDrop(heap, buckets, live, b, k);
      buckets := buckets[b := Dropped(buckets[b], k)];
      slotused := slotused - 1;
      live := live - {x};
      index := index - {heap[x].val};
    }
  }
}
