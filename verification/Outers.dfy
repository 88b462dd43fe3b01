/** Captured variables.  The virtual machine keeps a list of open outers, each
    pointing at a stack slot; a closed outer owns its value.  The meaning is a
    store with one cell per variable, shared by everyone who captured it. */
module Outers {
  import opened Common
  import opened Chains

  // -------------------------------------------------------------------- store

  /** `env` gives the cell of the variable now living in each slot, `outers` the
      cell each capture stands for. */
  datatype Store<V> = Store(cells: seq<V>, env: seq<nat>, outers: seq<nat>)

  ghost predicate Proper<V>(s: Store<V>) {
    && (forall i :: 0 <= i < |s.env| ==> s.env[i] < |s.cells|)
    && (forall h :: 0 <= h < |s.outers| ==> s.outers[h] < |s.cells|)
    && (forall i, j :: 0 <= i < j < |s.env| ==> s.env[i] != s.env[j])
    && (forall g, h :: 0 <= g < h < |s.outers| ==> s.outers[g] != s.outers[h])
  }

  function Write<V>(s: Store<V>, c: nat, v: V): Store<V> {
    if c < |s.cells| then s.(cells := s.cells[c := v]) else s
  }

  function Fresh(low: nat, n: nat): (r: seq<nat>)
    ensures |r| == n
  {
    seq(n, i requires 0 <= i < n => low + i)
  }

  /** The variables from slot `from` up end: the slots go to fresh cells with the same content. */
  function Rebound<V>(s: Store<V>, from: nat): Store<V>
    requires forall i :: 0 <= i < |s.env| ==> s.env[i] < |s.cells|
  {
    if from > |s.env| then s else
      var n := |s.env| - from;
      s.(cells := s.cells + seq(n, i requires 0 <= i < n => s.cells[s.env[from + i]]),
         env := s.env[..from] + Fresh(|s.cells|, n))
  }

  /** New slots hold new variables. */
  function Extended<V>(s: Store<V>, n: nat, nil: V): Store<V> {
    s.(cells := s.cells + seq(n, _ => nil), env := s.env + Fresh(|s.cells|, n))
  }

  /** The first capture of a variable makes an outer for its cell; later ones find it. */
  function Captured<V>(s: Store<V>, i: nat): Store<V>
    requires i < |s.env|
  {
    if s.env[i] in s.outers then s else s.(outers := s.outers + [s.env[i]])
  }

  datatype Op<V> =
    | Capture(i: nat)
    | GetLocal(i: nat)
    | SetLocal(i: nat, v: V)
    | GetOuter(h: nat)
    | SetOuter(h: nat, v: V)
    | Close(from: nat)
    | Grow(n: nat, nil: V)

  /** The slot or the outer exists. */
  predicate Legal<V>(s: Store<V>, op: Op<V>) {
    match op
    case Capture(i) => i < |s.env|
    case GetLocal(i) => i < |s.env|
    case SetLocal(i, _) => i < |s.env|
    case GetOuter(h) => h < |s.outers|
    case SetOuter(h, _) => h < |s.outers|
    case Close(from) => from <= |s.env|
    case Grow(_, _) => true
  }

  function Step<V>(s: Store<V>, op: Op<V>): Store<V>
    requires (forall i :: 0 <= i < |s.env| ==> s.env[i] < |s.cells|) && Legal(s, op)
  {
    match op
    case Capture(i) => Captured(s, i)
    case SetLocal(i, v) => Write(s, s.env[i], v)
    case SetOuter(h, v) => Write(s, s.outers[h], v)
    case Close(from) => Rebound(s, from)
    case Grow(n, nil) => Extended(s, n, nil)
    case _ => s
  }

  lemma StepProper<V>(s: Store<V>, op: Op<V>)
    requires Proper(s) && Legal(s, op)
    ensures Proper(Step(s, op))
    ensures |Step(s, op).cells| >= |s.cells| && |Step(s, op).env| >= |s.env|
    ensures |Step(s, op).outers| >= |s.outers| && Step(s, op).outers[..|s.outers|] == s.outers
  {
  }

  ghost predicate LegalRun<V>(s: Store<V>, ops: seq<Op<V>>)
    requires Proper(s)
    decreases |ops|
  {
    ops == [] || (Legal(s, ops[0]) && (StepProper(s, ops[0]); LegalRun(Step(s, ops[0]), ops[1..])))
  }

  ghost function Run<V>(s: Store<V>, ops: seq<Op<V>>): (r: Store<V>)
    requires Proper(s) && LegalRun(s, ops)
    ensures Proper(r)
    decreases |ops|
  {
    if ops == [] then s else
      StepProper(s, ops[0]);
      Run(Step(s, ops[0]), ops[1..])
  }

  /** An outer stands for the same cell over every run. */
  lemma {:induction false} RunKeepsOuters<V>(s: Store<V>, ops: seq<Op<V>>)
    requires Proper(s) && LegalRun(s, ops)
    ensures |s.outers| <= |Run(s, ops).outers| && Run(s, ops).outers[..|s.outers|] == s.outers
    decreases |ops|
  {
    hide Step;
    if ops != [] {
      StepProper(s, ops[0]);
      var t := Step(s, ops[0]);
      RunKeepsOuters(t, ops[1..]);
      assert Run(s, ops).outers[..|s.outers|] == Run(s, ops).outers[..|t.outers|][..|s.outers|];
    }
  }

  /** The variable in slot `i` does not end during the run. */
  predicate KeepsVariable<V>(ops: seq<Op<V>>, i: nat) {
    forall k :: 0 <= k < |ops| ==> !(ops[k].Close? && ops[k].from <= i)
  }

  /** Nothing is written through outer `h`. */
  predicate NoWrites<V>(ops: seq<Op<V>>, h: nat) {
    forall k :: 0 <= k < |ops| ==> !(ops[k].SetOuter? && ops[k].h == h)
  }

  /** Until its variable ends, an outer and the slot it was captured from are one cell,
      whatever else is captured, written, closed or moved. */
  lemma {:induction false} StaysShared<V>(s: Store<V>, i: nat, h: nat, ops: seq<Op<V>>)
    requires Proper(s) && LegalRun(s, ops) && KeepsVariable(ops, i)
    requires i < |s.env| && h < |s.outers| && s.env[i] == s.outers[h]
    ensures var r := Run(s, ops); i < |r.env| && h < |r.outers| && r.env[i] == r.outers[h] == s.outers[h]
    decreases |ops|
  {
    if ops != [] {
      StepProper(s, ops[0]);
      var s' := Step(s, ops[0]);
      assert s'.outers[h] == s'.outers[..|s.outers|][h];
      assert s'.env[i] == s.env[i];
      StaysShared(s', i, h, ops[1..]);
    }
  }

  /** A closed cell changes only through its outer. */
  lemma {:induction false} ClosedKeeps<V>(s: Store<V>, h: nat, ops: seq<Op<V>>)
    requires Proper(s) && LegalRun(s, ops) && NoWrites(ops, h) && h < |s.outers|
    requires forall i :: 0 <= i < |s.env| ==> s.env[i] != s.outers[h]
    ensures var r := Run(s, ops); h < |r.outers| && r.outers[h] == s.outers[h] && r.cells[r.outers[h]] == s.cells[s.outers[h]]
    decreases |ops|
  {
    if ops != [] {
      StepProper(s, ops[0]);
      var s' := Step(s, ops[0]);
      assert s'.outers[h] == s'.outers[..|s.outers|][h];
      assert s'.cells[s'.outers[h]] == s.cells[s.outers[h]];
      assert forall k :: 0 <= k < |ops[1..]| ==> ops[1..][k] == ops[k + 1];
      ClosedKeeps(s', h, ops[1..]);
    }
  }

  /** Capture a variable, run on, close it, run on without writing through the outer:
      the outer still has the value the variable had when it was closed. */
  lemma SnapshotAtClose<V>(s: Store<V>, i: nat, h: nat, ops: seq<Op<V>>, from: nat, rest: seq<Op<V>>)
    requires Proper(s) && i < |s.env| && h < |s.outers| && s.env[i] == s.outers[h]
    requires LegalRun(s, ops) && KeepsVariable(ops, i) && from <= i
    requires Legal(Run(s, ops), Close(from))
    requires var t := Rebound(Run(s, ops), from); Proper(t) && LegalRun(t, rest) && NoWrites(rest, h)
    ensures var t := Run(s, ops);
            var u := Run(Rebound(t, from), rest);
            i < |t.env| && h < |u.outers| && u.cells[u.outers[h]] == t.cells[t.env[i]]
  {
    StaysShared(s, i, h, ops);
    var t := Run(s, ops);
    ClosedKeeps(Rebound(t, from), h, rest);
  }

  // ------------------------------------------------------------- open outers

  /** A value pointer: a slot of the stack as allocated in some era, or the outer's own value. */
  datatype Ptr = Slot(era: nat, i: nat) | Own

  datatype Outer<V> = Outer(ptr: Ptr, idx: nat, value: V, next: int)

  /** `chain` is what following `next` from `head` visits. */
  ghost predicate Chained<V>(outers: seq<Outer<V>>, head: int, chain: seq<nat>) {
    && head == At(chain, 0)
    && (forall k :: 0 <= k < |chain| ==> chain[k] < |outers|)
    && (forall k :: 0 <= k < |chain| ==> Links(outers, chain, k))
  }

  ghost predicate Links<V>(outers: seq<Outer<V>>, chain: seq<nat>, k: nat)
    requires k < |chain| && chain[k] < |outers|
  {
    outers[chain[k]].next == At(chain, k + 1)
  }

  /** The chain holds exactly the outers that point at the stack, in strictly descending order. */
  ghost predicate Descending<V>(outers: seq<Outer<V>>, chain: seq<nat>, era: nat, size: nat) {
    && (forall k :: 0 <= k < |chain| ==> chain[k] < |outers| && Points(outers[chain[k]], era, size))
    && (forall j, k :: 0 <= j < k < |chain| ==> outers[chain[j]].idx > outers[chain[k]].idx)
    && (forall h :: 0 <= h < |outers| && outers[h].ptr.Slot? ==> Has(chain, h))
  }

  predicate Points<V>(o: Outer<V>, era: nat, size: nat) {
    o.ptr == Slot(era, o.idx) && o.idx < size
  }

  /** The value an outer stands for. */
  function Deref<V>(o: Outer<V>, stack: seq<V>): V {
    if o.ptr.Slot? && o.ptr.i < |stack| then stack[o.ptr.i] else o.value
  }

  /** An open outer stands for the variable in its slot, a closed one for a variable in no slot. */
  ghost predicate Represents<V>(stack: seq<V>, outers: seq<Outer<V>>, s: Store<V>) {
    && Proper(s) && |s.env| == |stack| && |s.outers| == |outers|
    && (forall i :: 0 <= i < |stack| ==> stack[i] == s.cells[s.env[i]])
    && (forall h :: 0 <= h < |outers| ==> Bound(stack, outers[h], s, s.outers[h]))
  }

  ghost predicate Bound<V>(stack: seq<V>, o: Outer<V>, s: Store<V>, c: nat)
    requires Proper(s) && |s.env| == |stack| && c < |s.cells|
  {
    match o.ptr
    case Slot(_, i) => i < |stack| && s.env[i] == c
    case Own => o.value == s.cells[c] && forall i :: 0 <= i < |s.env| ==> s.env[i] != c
  }

  // ------------------------------------------------------------------- lemmas

  lemma WriteRepresents<V>(stack: seq<V>, outers: seq<Outer<V>>, s: Store<V>, i: nat, v: V)
    requires Represents(stack, outers, s) && i < |stack|
    ensures Represents(stack[i := v], outers, Write(s, s.env[i], v))
  {
    forall h | 0 <= h < |outers| ensures Bound(stack[i := v], outers[h], Write(s, s.env[i], v), s.outers[h]) {
      assert Bound(stack, outers[h], s, s.outers[h]);
    }
  }

  lemma OwnWriteRepresents<V>(stack: seq<V>, outers: seq<Outer<V>>, s: Store<V>, h: nat, v: V)
    requires Represents(stack, outers, s) && h < |outers| && outers[h].ptr.Own?
    ensures Represents(stack, outers[h := outers[h].(value := v)], Write(s, s.outers[h], v))
  {
    var outers', s' := outers[h := outers[h].(value := v)], Write(s, s.outers[h], v);
    assert Bound(stack, outers[h], s, s.outers[h]);
    forall g | 0 <= g < |outers| ensures Bound(stack, outers'[g], s', s.outers[g]) {
      assert Bound(stack, outers[g], s, s.outers[g]);
    }
  }

  lemma CaptureRepresents<V>(stack: seq<V>, outers: seq<Outer<V>>, s: Store<V>, o: Outer<V>, i: nat, era: nat)
    requires Represents(stack, outers, s) && i < |stack| && o.ptr == Slot(era, i)
    requires forall h :: 0 <= h < |outers| ==> !(outers[h].ptr.Slot? && outers[h].ptr.i == i)
    ensures Represents(stack, outers + [o], s.(outers := s.outers + [s.env[i]]))
  {
    var s' := s.(outers := s.outers + [s.env[i]]);
    forall h | 0 <= h < |outers| ensures s.outers[h] != s.env[i] && Bound(stack, outers[h], s, s.outers[h]) {
      assert Bound(stack, outers[h], s, s.outers[h]);
    }
    forall h | 0 <= h < |outers| + 1 ensures Bound(stack, (outers + [o])[h], s', s'.outers[h]) {
      if h < |outers| { assert Bound(stack, outers[h], s, s.outers[h]); }
    }
  }

  lemma RelinkRepresents<V>(stack: seq<V>, outers: seq<Outer<V>>, outers': seq<Outer<V>>, s: Store<V>)
    requires Represents(stack, outers, s) && |outers'| == |outers|
    requires forall h :: 0 <= h < |outers| ==> outers'[h].value == outers[h].value
    requires forall h :: 0 <= h < |outers| ==> outers'[h].ptr.Slot? == outers[h].ptr.Slot?
    requires forall h :: 0 <= h < |outers| && outers[h].ptr.Slot? ==> outers'[h].ptr.i == outers[h].ptr.i
    ensures Represents(stack, outers', s)
  {
    forall h | 0 <= h < |outers| ensures Bound(stack, outers'[h], s, s.outers[h]) {
      assert Bound(stack, outers[h], s, s.outers[h]);
    }
  }

  lemma ExtendRepresents<V>(stack: seq<V>, outers: seq<Outer<V>>, s: Store<V>, n: nat, nil: V)
    requires Represents(stack, outers, s)
    ensures Represents(stack + seq(n, _ => nil), outers, Extended(s, n, nil))
  {
    var stack', s' := stack + seq(n, _ => nil), Extended(s, n, nil);
    forall h | 0 <= h < |outers| ensures Bound(stack', outers[h], s', s'.outers[h]) {
      assert Bound(stack, outers[h], s, s.outers[h]);
    }
  }

  /** Closing every outer from slot `from` up, and no other, matches ending the variables there. */
  lemma CloseRepresents<V>(stack: seq<V>, outers: seq<Outer<V>>, outers': seq<Outer<V>>, s: Store<V>, from: nat)
    requires Represents(stack, outers, s) && |outers'| == |outers| && from <= |stack|
    requires forall h :: 0 <= h < |outers| ==> ClosedFrom(stack, outers[h], outers'[h], from)
    ensures Represents(stack, outers', Rebound(s, from))
  {
    hide Bound, ClosedFrom;
    var s' := Rebound(s, from);
    ReboundProper(s, from);
    forall h | 0 <= h < |outers| ensures Bound(stack, outers'[h], s', s'.outers[h]) {
      CloseBound(stack, outers[h], outers'[h], s, s.outers[h], from);
    }
  }

  /** Ending variables gives their slots fresh cells with the same content. */
  lemma ReboundProper<V>(s: Store<V>, from: nat)
    requires Proper(s) && from <= |s.env|
    ensures var t := Rebound(s, from);
            && Proper(t) && |t.env| == |s.env| && t.outers == s.outers && |t.cells| >= |s.cells|
            && (forall i :: 0 <= i < |s.env| ==> t.cells[t.env[i]] == s.cells[s.env[i]])
            && (forall i :: 0 <= i < from ==> t.env[i] == s.env[i])
            && (forall i :: from <= i < |s.env| ==> t.env[i] >= |s.cells|)
            && (forall c :: 0 <= c < |s.cells| ==> t.cells[c] == s.cells[c])
  {
  }

  /** One outer: closed if it pointed at or above `from`, untouched otherwise. */
  lemma CloseBound<V>(stack: seq<V>, o: Outer<V>, o': Outer<V>, s: Store<V>, c: nat, from: nat)
    requires Proper(s) && |s.env| == |stack| && c < |s.cells| && from <= |stack| && Bound(stack, o, s, c)
    requires forall i :: 0 <= i < |stack| ==> stack[i] == s.cells[s.env[i]]
    requires ClosedFrom(stack, o, o', from)
    ensures Proper(Rebound(s, from)) && |Rebound(s, from).env| == |stack| && c < |Rebound(s, from).cells|
    ensures Bound(stack, o', Rebound(s, from), c)
  {
    ReboundProper(s, from);
    hide Rebound;
  }

  ghost predicate ClosedFrom<V>(stack: seq<V>, o: Outer<V>, o': Outer<V>, from: nat) {
    if o.ptr.Slot? && o.ptr.i >= from then o'.ptr == Own && o'.value == Deref(o, stack) else o'.ptr == o.ptr && o'.value == o.value
  }

  lemma FoundIs<V>(s: Store<V>, i: nat, h: nat, s': Store<V>)
    requires Proper(s') && i < |s.env| && h < |s'.outers| && s'.outers[h] == s.env[i] && s' == s.(outers := s'.outers)
    requires if h < |s.outers| then s'.outers == s.outers else s'.outers == s.outers + [s.env[i]]
    ensures s' == Captured(s, i)
  {
    if h >= |s.outers| {
      forall g | 0 <= g < |s.outers| ensures s.outers[g] != s.env[i] {
        assert s'.outers[g] == s.outers[g] && s'.outers[|s.outers|] == s.env[i];
      }
    }
  }

  /** Linking a new outer in before position `k` of the chain. */
  ghost predicate InsertedAt<V>(outers: seq<Outer<V>>, head: int, chain: seq<nat>, k: nat, o: Outer<V>, outers': seq<Outer<V>>, head': int)
    requires k <= |chain|
  {
    && o.next == At(chain, k)
    && head' == (if k == 0 then |outers| else head)
    && |outers'| == |outers| + 1 && outers'[|outers|] == o
    && forall h :: 0 <= h < |outers| ==>
        outers'[h] == if k > 0 && h == chain[k - 1] then outers[h].(next := |outers|) else outers[h]
  }

  lemma InsertChained<V>(outers: seq<Outer<V>>, head: int, chain: seq<nat>, k: nat, o: Outer<V>, outers': seq<Outer<V>>, head': int)
    requires Chained(outers, head, chain) && k <= |chain|
    requires Apart(chain)
    requires InsertedAt(outers, head, chain, k, o, outers', head')
    ensures Chained(outers', head', chain[..k] + [|outers|] + chain[k..])
  {
    var chain' := chain[..k] + [|outers|] + chain[k..];
    forall j | 0 <= j < |chain'| ensures chain'[j] < |outers'| && Links(outers', chain', j) {
      if j < k {
        assert Links(outers, chain, j) && chain'[j] == chain[j];
      } else if j > k {
        assert Links(outers, chain, j - 1) && chain'[j] == chain[j - 1];
      }
    }
  }

  lemma InsertHas(chain: seq<nat>, k: nat, x: nat)
    requires k <= |chain|
    ensures Has(chain[..k] + [x] + chain[k..], x)
    ensures forall h :: Has(chain, h) ==> Has(chain[..k] + [x] + chain[k..], h)
  {
    var chain' := chain[..k] + [x] + chain[k..];
    assert chain'[k] == x;
    forall h | Has(chain, h) ensures Has(chain', h) {
      var j :| 0 <= j < |chain| && chain[j] == h;
      assert chain'[if j < k then j else j + 1] == h;
    }
  }

  lemma InsertOrdered<V>(outers: seq<Outer<V>>, head: int, chain: seq<nat>, era: nat, size: nat, k: nat, o: Outer<V>,
        outers': seq<Outer<V>>, head': int, i: nat, j: nat)
    requires Descending(outers, chain, era, size) && k <= |chain| && i < j <= |chain|
    requires InsertedAt(outers, head, chain, k, o, outers', head')
    requires Above(outers, chain, k, o.idx) && (k < |chain| ==> outers[chain[k]].idx < o.idx)
    ensures var chain' := chain[..k] + [|outers|] + chain[k..]; outers'[chain'[i]].idx > outers'[chain'[j]].idx
  {
    hide Has;
    if i == k {
      assert outers[chain[k]].idx >= outers[chain[j - 1]].idx;
    } else if j != k {
      assert outers[chain[if i < k then i else i - 1]].idx > outers[chain[if j < k then j else j - 1]].idx;
    }
  }

  lemma InsertDescending<V>(outers: seq<Outer<V>>, head: int, chain: seq<nat>, era: nat, size: nat, k: nat, o: Outer<V>,
        outers': seq<Outer<V>>, head': int)
    requires Descending(outers, chain, era, size) && k <= |chain|
    requires InsertedAt(outers, head, chain, k, o, outers', head') && Points(o, era, size)
    requires Above(outers, chain, k, o.idx) && (k < |chain| ==> outers[chain[k]].idx < o.idx)
    ensures Descending(outers', chain[..k] + [|outers|] + chain[k..], era, size)
  {
    hide Has;
    var chain' := chain[..k] + [|outers|] + chain[k..];
    InsertHas(chain, k, |outers|);
    forall j | 0 <= j < |chain'| ensures chain'[j] < |outers'| && Points(outers'[chain'[j]], era, size) {
      if j != k { assert chain'[j] == chain[if j < k then j else j - 1]; }
    }
    forall i, j | 0 <= i < j < |chain'| ensures outers'[chain'[i]].idx > outers'[chain'[j]].idx {
      InsertOrdered(outers, head, chain, era, size, k, o, outers', head', i, j);
    }
    forall h | 0 <= h < |outers'| && outers'[h].ptr.Slot? ensures Has(chain', h) {
      assert h < |outers| ==> Has(chain, h);
    }
  }

  lemma DistinctChain<V>(outers: seq<Outer<V>>, chain: seq<nat>, era: nat, size: nat)
    requires Descending(outers, chain, era, size)
    ensures Apart(chain)
  {
  }

  /** Taking the first outer off the chain and closing it. */
  lemma PopChained<V>(outers: seq<Outer<V>>, head: int, chain: seq<nat>, era: nat, size: nat, v: V)
    requires Chained(outers, head, chain) && Descending(outers, chain, era, size) && chain != []
    ensures 0 <= head < |outers|
    ensures var outers' := outers[head := outers[head].(ptr := Own, value := v)];
            Chained(outers', outers[head].next, chain[1..]) && Descending(outers', chain[1..], era, size)
  {
    var outers' := outers[head := outers[head].(ptr := Own, value := v)];
    DistinctChain(outers, chain, era, size);
    assert Links(outers, chain, 0);
    forall k | 0 <= k < |chain[1..]| ensures chain[1..][k] < |outers'| && Links(outers', chain[1..], k) {
      assert Links(outers, chain, k + 1);
    }
    forall h | 0 <= h < |outers'| && outers'[h].ptr.Slot? ensures Has(chain[1..], h) {
      assert Has(chain, h);
      var k :| 0 <= k < |chain| && chain[k] == h;
      assert chain[1..][k - 1] == h;
    }
  }

  /** What the chain's `k`th outer is. */
  lemma ChainAt<V>(outers: seq<Outer<V>>, head: int, chain: seq<nat>, era: nat, size: nat, k: nat)
    requires Chained(outers, head, chain) && Descending(outers, chain, era, size)
    ensures k == 0 ==> head == At(chain, k)
    ensures k < |chain| ==>
              var h := chain[k];
              h < |outers| && outers[h].ptr == Slot(era, outers[h].idx) && outers[h].idx < size && outers[h].next == At(chain, k + 1)
  {
    if k < |chain| { assert Links(outers, chain, k); }
  }

  class VarStack<V> {
    const nil: V
    var stack: seq<V>
    var era: nat
    var outers: seq<Outer<V>>
    var openouters: int
    ghost var chain: seq<nat>
    ghost var store: Store<V>

    ghost predicate Valid()
      reads this
    {
      && Chained(outers, openouters, chain)
      && Descending(outers, chain, era, |stack|)
      && Represents(stack, outers, store)
    }

    constructor (nil: V, size: nat)
      ensures Valid() && this.nil == nil
      ensures store == Extended(Store([], [], []), size, nil)
    {
      this.nil := nil;
      stack := seq(size, _ => nil);
      era, outers, openouters := 0, [], -1;
      chain := [];
      store := Extended(Store([], [], []), size, nil);
    }

    /** Writes the variable in slot `i`, captured or not. */
    method WriteLocal(i: nat, v: V)
      requires Valid() && i < |stack|
      modifies this
      ensures Valid() && store == Write(old(store), old(store).env[i], v) && |stack| == |old(stack)|
    {
      WriteRepresents(stack, outers, store, i, v);
      stack := stack[i := v];
      store := Write(store, store.env[i], v);
    }

    method ReadLocal(i: nat) returns (v: V)
      requires Valid() && i < |stack|
      ensures v == store.cells[store.env[i]]
    {
      v := stack[i];
    }

    /** GETOUTER: reads through the value pointer. */
    method ReadOuter(h: nat) returns (v: V)
      requires Valid() && h < |outers|
      ensures v == store.cells[store.outers[h]]
    {
      assert Bound(stack, outers[h], store, store.outers[h]);
      v := match outers[h].ptr case Slot(_, i) => stack[i] case Own => outers[h].value;
    }

    /** SETOUTER: writes through the value pointer. */
    method WriteOuter(h: nat, v: V)
      requires Valid() && h < |outers|
      modifies this
      ensures Valid() && store == Write(old(store), old(store).outers[h], v) && |stack| == |old(stack)|
    {
      hide Chained, Descending, Represents;
      OpenBound(stack, outers, store, h);
      match outers[h].ptr {
        case Slot(_, i) =>
          WriteRepresents(stack, outers, store, i, v);
          stack := stack[i := v];
        case Own =>
          OwnWriteRepresents(stack, outers, store, h, v);
          OwnNotChained(outers, openouters, chain, era, |stack|, h, v);
          outers := outers[h := outers[h].(value := v)];
      }
      store := Write(store, store.outers[h], v);
    }

    /** The one outer of the variable in slot `i`, made on the first capture. */
    method FindOuter(i: nat) returns (h: nat)
      requires Valid() && i < |stack|
      modifies this
      ensures Valid() && stack == old(stack)
      ensures h < |store.outers| && store.outers[h] == old(store).env[i]
      ensures store == old(store).(outers := store.outers)
      ensures if h < |old(store).outers| then store.outers == old(store).outers else store.outers == old(store).outers + [old(store).env[i]]
    {
      hide Chained, Descending, Represents;
      var prev, p := -1, openouters;
      ghost var k, was, head := 0, outers, openouters;
      ChainAt(outers, openouters, chain, era, |stack|, 0);
      while p != -1 && outers[p].ptr.i >= i
        invariant 0 <= k <= |chain| && p == At(chain, k) && prev == At(chain, k - 1)
        invariant p != -1 ==> p < |outers| && outers[p].ptr == Slot(era, outers[p].idx)
        invariant Valid() && stack == old(stack) && store == old(store) && outers == was && openouters == head
        invariant Above(outers, chain, k, i)
        decreases |chain| - k
      {
        ChainAt(outers, openouters, chain, era, |stack|, k);
        if outers[p].ptr.i == i {
          OpenBound(stack, outers, store, p);
          return p;
        }
        prev := p;
        p := outers[p].next;
        k := k + 1;
        ChainAt(outers, openouters, chain, era, |stack|, k);
      }
      h := |outers|;
      var o := Outer(Slot(era, i), i, nil, p);
      ChainAt(outers, openouters, chain, era, |stack|, if k == 0 then 0 else k - 1);
      ChainAt(outers, openouters, chain, era, |stack|, k);
      SameSize(stack, outers, store);
      outers := outers + [o];
      if prev == -1 {
        openouters := h;
      } else {
        outers := outers[prev := outers[prev].(next := h)];
      }
      InsertKeeps(stack, was, head, chain, era, k, o, outers, openouters, store);
      chain := chain[..k] + [h as nat] + chain[k..];
      store := store.(outers := store.outers + [store.env[i]]);
    }

    /** Closes every outer at or above slot `from`: it takes the value its slot has now. */
    method CloseOuters(from: nat)
      requires Valid() && from <= |stack|
      modifies this
      ensures Valid() && stack == old(stack) && store == Rebound(old(store), from)
    {
      hide Chained, Descending, Represents, ClosingFrom;
      ghost var was := outers;
      ChainAt(outers, openouters, chain, era, |stack|, 0);
      StillOpen(stack, was, from);
      while openouters != -1 && outers[openouters].ptr.i >= from
        invariant Chained(outers, openouters, chain) && Descending(outers, chain, era, |stack|)
        invariant stack == old(stack) && store == old(store) && era == old(era) && |outers| == |was|
        invariant openouters == At(chain, 0)
        invariant openouters != -1 ==> openouters < |outers| && outers[openouters].ptr.Slot? && outers[openouters].ptr.i < |stack|
        invariant Closing(stack, was, outers, from)
        decreases |chain|
      {
        PopChained(outers, openouters, chain, era, |stack|, stack[outers[openouters].ptr.i]);
        CloseOne(stack, was, outers, from, openouters);
        var p := openouters;
        outers := outers[p := outers[p].(ptr := Own, value := stack[outers[p].ptr.i])];
        openouters := outers[p].next;
        chain := chain[1..];
        ChainAt(outers, openouters, chain, era, |stack|, 0);
      }
      AllClosed(stack, was, outers, openouters, chain, era, from);
      SameSize(stack, was, store);
      CloseRepresents(stack, was, outers, store, from);
      store := Rebound(store, from);
    }

    /** The stack moves to larger memory: every open outer is pointed at its slot again. */
    method GrowStack(n: nat)
      requires Valid()
      modifies this
      ensures Valid() && stack == old(stack) + seq(n, _ => nil) && store == Extended(old(store), n, nil)
    {
      ExtendRepresents(stack, outers, store, n, nil);
      stack := stack + seq(n, _ => nil);
      store := Extended(store, n, nil);
      era := era + 1;
      RelocateOuters(|old(stack)|);
    }

    /** One operation; what it reads, and the outer a capture gives, are what the store says. */
    method Do(op: Op<V>) returns (seen: Option<V>, made: nat)
      requires Valid() && Legal(store, op) && (op.Grow? ==> op.nil == nil)
      modifies this
      ensures Valid() && store == Step(old(store), op)
      ensures op.GetLocal? ==> seen == Some(old(store).cells[old(store).env[op.i]])
      ensures op.GetOuter? ==> seen == Some(old(store).cells[old(store).outers[op.h]])
      ensures op.Capture? ==> made < |store.outers| && store.outers[made] == old(store).env[op.i]
    {
      hide Chained, Descending, Represents;
      SameSize(stack, outers, store);
      seen, made := None, 0;
      match op
      case Capture(i) =>
        made := FindOuter(i);
        SameSize(stack, outers, store);
        FoundIs(old(store), i, made, store);
      case GetLocal(i) =>
        var v := ReadLocal(i);
        seen := Some(v);
      case GetOuter(h) =>
        var v := ReadOuter(h);
        seen := Some(v);
      case SetLocal(i, v) => WriteLocal(i, v);
      case SetOuter(h, v) => WriteOuter(h, v);
      case Close(from) => CloseOuters(from);
      case Grow(n, _) => GrowStack(n);
    }

    /** Any run of the machine is the run of the store. */
    method Perform(ops: seq<Op<V>>)
      requires Valid() && Proper(store) && LegalRun(store, ops)
      requires forall k :: 0 <= k < |ops| && ops[k].Grow? ==> ops[k].nil == nil
      modifies this
      ensures Valid() && store == Run(old(store), ops)
    {
      hide Chained, Descending, Represents, Step, Legal;
      var k := 0;
      while k < |ops|
        invariant 0 <= k <= |ops| && Valid() && Proper(store) && LegalRun(store, ops[k..])
        invariant Run(store, ops[k..]) == Run(old(store), ops)
      {
        assert ops[k..][1..] == ops[k + 1..];
        StepProper(store, ops[k]);
        var _, _ := Do(ops[k]);
        k := k + 1;
      }
    }

    method RelocateOuters(ghost size: nat)
      requires era > 0 && Chained(outers, openouters, chain) && Represents(stack, outers, store)
      requires size <= |stack| && Descending(outers, chain, era - 1, size)
      modifies this`outers
      ensures Valid()
    {
      hide Chained, Descending, Represents;
      ghost var was := outers;
      var p := openouters;
      ghost var k := 0;
      ChainAt(outers, openouters, chain, era - 1, size, 0);
      MovedNone(was, openouters, chain, era, size);
      while p != -1
        invariant 0 <= k <= |chain| && p == At(chain, k) && |outers| == |was|
        invariant p != -1 ==> p < |outers|
        invariant MovedTo(was, outers, chain, era, k)
        decreases |chain| - k
      {
        ChainAt(was, openouters, chain, era - 1, size, k);
        MovedOne(was, openouters, outers, chain, era, size, k);
        outers := outers[p := outers[p].(ptr := Slot(era, outers[p].idx))];
        p := outers[p].next;
        k := k + 1;
        ChainAt(was, openouters, chain, era - 1, size, k);
      }
      AllMoved(stack, was, openouters, outers, chain, era, size, store);
    }
  }

  /** The first `k` outers of the chain point into the new era's stack; nothing else has changed. */
  ghost predicate MovedTo<V>(was: seq<Outer<V>>, outers: seq<Outer<V>>, chain: seq<nat>, era: nat, k: nat) {
    && |outers| == |was| && k <= |chain|
    && (forall j :: 0 <= j < |chain| ==> chain[j] < |was|)
    && (forall j :: 0 <= j < k ==> outers[chain[j]] == was[chain[j]].(ptr := Slot(era, was[chain[j]].idx)))
    && (forall j :: k <= j < |chain| ==> outers[chain[j]] == was[chain[j]])
    && (forall h :: 0 <= h < |was| && !Has(chain, h) ==> outers[h] == was[h])
  }

  lemma MovedNone<V>(was: seq<Outer<V>>, head: int, chain: seq<nat>, era: nat, size: nat)
    requires Chained(was, head, chain)
    ensures MovedTo(was, was, chain, era, 0)
  {
  }

  lemma MovedOne<V>(was: seq<Outer<V>>, head: int, outers: seq<Outer<V>>, chain: seq<nat>, era: nat, size: nat, k: nat)
    requires era > 0 && Chained(was, head, chain) && Descending(was, chain, era - 1, size)
    requires MovedTo(was, outers, chain, era, k) && k < |chain|
    ensures chain[k] < |outers| && outers[chain[k]].next == was[chain[k]].next
    ensures MovedTo(was, outers[chain[k] := outers[chain[k]].(ptr := Slot(era, outers[chain[k]].idx))], chain, era, k + 1)
  {
    DistinctChain(was, chain, era - 1, size);
    forall h | 0 <= h < |was| && !Has(chain, h) ensures h != chain[k] { assert Has(chain, chain[k]); }
  }

  lemma AllMoved<V>(stack: seq<V>, was: seq<Outer<V>>, head: int, outers: seq<Outer<V>>, chain: seq<nat>, era: nat, size: nat, s: Store<V>)
    requires era > 0 && Chained(was, head, chain) && Descending(was, chain, era - 1, size) && size <= |stack|
    requires MovedTo(was, outers, chain, era, |chain|) && Represents(stack, was, s)
    ensures Chained(outers, head, chain) && Descending(outers, chain, era, |stack|) && Represents(stack, outers, s)
  {
    forall k | 0 <= k < |chain| ensures Links(outers, chain, k) { assert Links(was, chain, k); }
    forall h | 0 <= h < |was|
      ensures outers[h].value == was[h].value && outers[h].ptr.Slot? == was[h].ptr.Slot?
      ensures was[h].ptr.Slot? ==> outers[h].ptr.i == was[h].ptr.i
    {
      if Has(chain, h) { var j :| 0 <= j < |chain| && chain[j] == h; }
    }
    forall h | 0 <= h < |outers| && outers[h].ptr.Slot? ensures Has(chain, h) { assert was[h].ptr.Slot?; }
    RelinkRepresents(stack, was, outers, s);
  }

  ghost predicate Above<V>(outers: seq<Outer<V>>, chain: seq<nat>, k: nat, i: nat) {
    k <= |chain| && forall j :: 0 <= j < k ==> chain[j] < |outers| && outers[chain[j]].idx > i
  }

  lemma OpenBound<V>(stack: seq<V>, outers: seq<Outer<V>>, s: Store<V>, h: nat)
    requires Represents(stack, outers, s) && h < |outers|
    ensures h < |s.outers| && s.outers[h] < |s.cells| && Proper(s) && |s.env| == |stack| && Bound(stack, outers[h], s, s.outers[h])
  {
  }

  lemma InsertKeeps<V>(stack: seq<V>, outers: seq<Outer<V>>, head: int, chain: seq<nat>, era: nat, k: nat, o: Outer<V>,
        outers': seq<Outer<V>>, head': int, s: Store<V>)
    requires Chained(outers, head, chain) && Descending(outers, chain, era, |stack|) && Represents(stack, outers, s) && k <= |chain|
    requires InsertedAt(outers, head, chain, k, o, outers', head') && o.ptr == Slot(era, o.idx) && o.idx < |stack|
    requires Above(outers, chain, k, o.idx) && (k < |chain| ==> outers[chain[k]].idx < o.idx)
    ensures o.idx < |s.env| && Represents(stack, outers', s.(outers := s.outers + [s.env[o.idx]]))
    ensures Chained(outers', head', chain[..k] + [|outers|] + chain[k..])
    ensures Descending(outers', chain[..k] + [|outers|] + chain[k..], era, |stack|)
  {
    hide Represents;
    DistinctChain(outers, chain, era, |stack|);
    NoneThere(outers, head, chain, era, |stack|, k, o.idx);
    InsertChained(outers, head, chain, k, o, outers', head');
    InsertDescending(outers, head, chain, era, |stack|, k, o, outers', head');
    assert o.idx < |s.env| by { SameSize(stack, outers, s); }
    CaptureRepresents(stack, outers, s, o, o.idx, era);
    RelinkRepresents(stack, outers + [o], outers', s.(outers := s.outers + [s.env[o.idx]]));
  }

  lemma SameSize<V>(stack: seq<V>, outers: seq<Outer<V>>, s: Store<V>)
    requires Represents(stack, outers, s)
    ensures |s.env| == |stack| && |s.outers| == |outers| && Proper(s)
  {
  }

  ghost predicate Closing<V>(stack: seq<V>, was: seq<Outer<V>>, outers: seq<Outer<V>>, from: nat) {
    |outers| == |was| && forall h :: 0 <= h < |outers| ==> ClosingFrom(stack, was[h], outers[h], from)
  }

  lemma StillOpen<V>(stack: seq<V>, was: seq<Outer<V>>, from: nat)
    ensures Closing(stack, was, was, from)
  {
  }

  lemma CloseOne<V>(stack: seq<V>, was: seq<Outer<V>>, outers: seq<Outer<V>>, from: nat, p: nat)
    requires Closing(stack, was, outers, from) && p < |outers| && outers[p].ptr.Slot? && from <= outers[p].ptr.i < |stack|
    ensures |outers| == |was|
    ensures Closing(stack, was, outers[p := outers[p].(ptr := Own, value := stack[outers[p].ptr.i])], from)
  {
  }

  lemma OwnNotChained<V>(outers: seq<Outer<V>>, head: int, chain: seq<nat>, era: nat, size: nat, h: nat, v: V)
    requires Chained(outers, head, chain) && Descending(outers, chain, era, size) && h < |outers| && outers[h].ptr.Own?
    ensures var outers' := outers[h := outers[h].(value := v)]; Chained(outers', head, chain) && Descending(outers', chain, era, size)
  {
    var outers' := outers[h := outers[h].(value := v)];
    forall k | 0 <= k < |chain| ensures Links(outers', chain, k) { assert Links(outers, chain, k); }
  }

  lemma NoneThere<V>(outers: seq<Outer<V>>, head: int, chain: seq<nat>, era: nat, size: nat, k: nat, i: nat)
    requires Chained(outers, head, chain) && Descending(outers, chain, era, size) && k <= |chain|
    requires forall j :: 0 <= j < k ==> outers[chain[j]].idx > i
    requires k < |chain| ==> outers[chain[k]].idx < i
    ensures forall h :: 0 <= h < |outers| ==> !(outers[h].ptr.Slot? && outers[h].ptr.i == i)
  {
    forall h | 0 <= h < |outers| && outers[h].ptr.Slot? ensures outers[h].ptr.i != i {
      assert Has(chain, h);
      var j :| 0 <= j < |chain| && chain[j] == h;
    }
  }

  /** Either untouched so far or closed as it should be. */
  ghost predicate ClosingFrom<V>(stack: seq<V>, o: Outer<V>, o': Outer<V>, from: nat) {
    o' == o || (o.ptr.Slot? && from <= o.ptr.i < |stack| && o' == o.(ptr := Own, value := stack[o.ptr.i]))
  }

  lemma AllClosed<V>(stack: seq<V>, was: seq<Outer<V>>, outers: seq<Outer<V>>, head: int, chain: seq<nat>, era: nat, from: nat)
    requires |was| == |outers| && forall h :: 0 <= h < |outers| ==> ClosingFrom(stack, was[h], outers[h], from)
    requires Chained(outers, head, chain) && Descending(outers, chain, era, |stack|)
    requires head == -1 || (0 <= head < |outers| && outers[head].ptr.Slot? && outers[head].ptr.i < from)
    ensures forall h :: 0 <= h < |outers| ==> ClosedFrom(stack, was[h], outers[h], from)
  {
    forall h | 0 <= h < |outers| ensures ClosedFrom(stack, was[h], outers[h], from) {
      assert ClosingFrom(stack, was[h], outers[h], from);
      if outers[h].ptr.Slot? {
        assert Has(chain, h);
        var j :| 0 <= j < |chain| && chain[j] == h;
        assert outers[chain[j]].idx <= outers[chain[0]].idx;
      }
    }
  }
}
