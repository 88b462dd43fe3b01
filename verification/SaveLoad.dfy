/** Writing a compiled function to a byte stream and reading it back.  Integers
    are little-endian words of eight bytes, tags words of four. */
module SaveLoad {
  import opened Common

  type Byte = x: int | 0 <= x < 256
  type Bytes = seq<Byte>

  const WORD: nat := 8
  const TAGSIZE: nat := 4
  const FLOATSIZE: nat := 4

  // --------------------------------------------------------------------- data

  /** Integers, booleans and floats are the bits of a word; `Other` is every type
      that cannot be written. */
  datatype Value = Null | Integer(bits: nat) | Bool(bits: nat) | Float(raw: Bytes) | Str(text: Bytes) | Other(tag: nat)

  datatype OuterVar = OuterVar(kind: nat, src: Value, name: Value)

  datatype LocalInfo = LocalInfo(name: Value, pos: nat, start: nat, end: nat)

  /** Line infos, default parameters and instructions are blocks of fixed-size records. */
  datatype Proto = Proto(source: Value, name: Value, literals: seq<Value>, params: seq<Value>,
                         outers: seq<OuterVar>, locals: seq<LocalInfo>, lines: Bytes, defaults: Bytes,
                         code: Bytes, functions: seq<Proto>, stackSize: nat, generator: Byte, varparams: nat)

  const LINESIZE: nat := 16
  const INSTRSIZE: nat := 8

  // The type tags and stream tags.
  const OT_NULL: nat := 0x01000001
  const OT_INTEGER: nat := 0x05000002
  const OT_FLOAT: nat := 0x05000004
  const OT_BOOL: nat := 0x01000008
  const OT_STRING: nat := 0x08000010
  const HEAD: nat := 0x53514952
  const PART: nat := 0x50415254
  const TAIL: nat := 0x5441494C

  // ------------------------------------------------------------------ reading

  /** What a reader gives: a value and the unread rest, or a failure. */
  datatype Parse<+T> = Fail | Ok(value: T, rest: Bytes) {
    predicate IsFailure() { Fail? }
    function PropagateFailure<U>(): Parse<U>
      requires Fail?
    {
      Fail
    }
    function Extract(): (T, Bytes)
      requires Ok?
    {
      (value, rest)
    }
  }

  function Read(s: Bytes, n: nat): (r: Parse<Bytes>)
    ensures r.Ok? ==> |r.rest| + n == |s|
  {
    if |s| < n then Fail else Ok(s[..n], s[n..])
  }

  function Dec(s: Bytes): nat {
    if s == [] then 0 else s[0] + 256 * Dec(s[1..])
  }

  function Enc(n: nat, k: nat): (r: Bytes)
    ensures |r| == k
  {
    if k == 0 then [] else [n % 256] + Enc(n / 256, k - 1)
  }

  function Limit(k: nat): nat {
    if k == 0 then 1 else 256 * Limit(k - 1)
  }

  /** The number fits `k` bytes. */
  predicate Fits(n: nat, k: nat) { n < Limit(k) }

  lemma {:induction false} DecEnc(n: nat, k: nat)
    requires Fits(n, k)
    ensures Dec(Enc(n, k)) == n
    decreases k
  {
    if k > 0 {
      DecEnc(n / 256, k - 1);
      assert Enc(n, k)[1..] == Enc(n / 256, k - 1);
    }
  }

  function ReadWord(s: Bytes, k: nat): (r: Parse<nat>)
    ensures r.Ok? ==> |r.rest| + k == |s|
  {
    var (b, t) :- Read(s, k);
    Ok(Dec(b), t)
  }

  function CheckTag(s: Bytes, tag: nat): (r: Parse<nat>)
    ensures r.Ok? ==> |r.rest| + TAGSIZE == |s|
  {
    var (t, rest) :- ReadWord(s, TAGSIZE);
    if t == tag then Ok(t, rest) else Fail
  }

  // ---------------------------------------------------------------- agreement

  /** `s` starts with `e`, or stops short inside it. */
  ghost predicate Along(s: Bytes, e: Bytes) {
    forall i :: 0 <= i < |s| && i < |e| ==> s[i] == e[i]
  }

  /** What reading `e`, which stands for `x`, off `s` must give. */
  ghost function Expected<T>(s: Bytes, e: Bytes, x: T): Parse<T> {
    if |s| >= |e| then Ok(x, s[|e|..]) else Fail
  }

  lemma AlongSplit(s: Bytes, e: Bytes, f: Bytes)
    requires Along(s, e + f)
    ensures Along(s, e)
    ensures |s| >= |e| ==> Along(s[|e|..], f)
  {
    forall i | 0 <= i < |s| && i < |e| ensures s[i] == e[i] { assert (e + f)[i] == e[i]; }
    if |s| >= |e| {
      forall i | 0 <= i < |s[|e|..]| && i < |f| ensures s[|e|..][i] == f[i] { assert (e + f)[|e| + i] == f[i]; }
    }
  }

  lemma Later(s: Bytes, i: nat, j: nat)
    ensures i + j <= |s| ==> s[i..][j..] == s[i + j..]
  {
  }

  lemma ReadsBytes(s: Bytes, e: Bytes)
    requires Along(s, e)
    ensures Read(s, |e|) == Expected(s, e, e)
  {
    if |s| >= |e| { assert s[..|e|] == e; }
  }

  lemma ReadsWord(s: Bytes, n: nat, k: nat)
    requires Along(s, Enc(n, k)) && Fits(n, k)
    ensures ReadWord(s, k) == Expected(s, Enc(n, k), n)
  {
    ReadsBytes(s, Enc(n, k));
    DecEnc(n, k);
  }

  lemma ReadsTag(s: Bytes, tag: nat)
    requires Along(s, Enc(tag, TAGSIZE)) && Fits(tag, TAGSIZE)
    ensures CheckTag(s, tag) == Expected(s, Enc(tag, TAGSIZE), tag)
  {
    ReadsWord(s, tag, TAGSIZE);
  }

  // ------------------------------------------------------------------- values

  function Write(o: Value): Bytes {
    match o
    case Null => Enc(OT_NULL, TAGSIZE)
    case Integer(i) => Enc(OT_INTEGER, TAGSIZE) + Enc(i, WORD)
    case Bool(i) => Enc(OT_BOOL, TAGSIZE) + Enc(i, WORD)
    case Float(raw) => Enc(OT_FLOAT, TAGSIZE) + raw
    case Str(text) => Enc(OT_STRING, TAGSIZE) + (Enc(|text|, WORD) + text)
    case Other(tag) => Enc(tag, TAGSIZE)
  }

  /** The value can be written and its parts have their sizes. */
  predicate Writable(o: Value) {
    match o
    case Null => true
    case Integer(i) => Fits(i, WORD)
    case Bool(i) => Fits(i, WORD)
    case Float(raw) => |raw| == FLOATSIZE
    case Str(text) => Fits(|text|, WORD)
    case Other(_) => false
  }

  function ReadObject(s: Bytes): (r: Parse<Value>)
    ensures r.Ok? ==> |r.rest| < |s|
  {
    var (t, s1) :- ReadWord(s, TAGSIZE);
    if t == OT_STRING then
      var (n, s2) :- ReadWord(s1, WORD);
      var (text, s3) :- Read(s2, n);
      Ok(Str(text), s3)
    else if t == OT_INTEGER then
      var (i, s2) :- ReadWord(s1, WORD);
      Ok(Integer(i), s2)
    else if t == OT_BOOL then
      var (i, s2) :- ReadWord(s1, WORD);
      Ok(Bool(i), s2)
    else if t == OT_FLOAT then
      var (raw, s2) :- Read(s1, FLOATSIZE);
      Ok(Float(raw), s2)
    else if t == OT_NULL then Ok(Null, s1)
    else Fail
  }

  lemma TagsFit()
    ensures Limit(TAGSIZE) == 0x1_0000_0000
  {
    assert Limit(0) == 1 && Limit(1) == 256 && Limit(2) == 65536 && Limit(3) == 0x100_0000;
  }

  lemma ReadsObject(s: Bytes, o: Value)
    requires Along(s, Write(o)) && Writable(o)
    ensures ReadObject(s) == Expected(s, Write(o), o)
  {
    hide Enc, Dec, Limit, Fits, Along;
    ObjectTagsFit();
    match o
    case Null => ReadsWord(s, OT_NULL, TAGSIZE);
    case Integer(i) =>
      AlongSplit(s, Enc(OT_INTEGER, TAGSIZE), Enc(i, WORD));
      ReadsWord(s, OT_INTEGER, TAGSIZE);
      if |s| >= TAGSIZE { ReadsWord(s[TAGSIZE..], i, WORD); }
    case Bool(i) =>
      AlongSplit(s, Enc(OT_BOOL, TAGSIZE), Enc(i, WORD));
      ReadsWord(s, OT_BOOL, TAGSIZE);
      if |s| >= TAGSIZE { ReadsWord(s[TAGSIZE..], i, WORD); }
    case Float(raw) =>
      AlongSplit(s, Enc(OT_FLOAT, TAGSIZE), raw);
      ReadsWord(s, OT_FLOAT, TAGSIZE);
      if |s| >= TAGSIZE { ReadsBytes(s[TAGSIZE..], raw); }
    case Str(text) =>
      AlongSplit(s, Enc(OT_STRING, TAGSIZE), Enc(|text|, WORD) + text);
      ReadsWord(s, OT_STRING, TAGSIZE);
      if |s| >= TAGSIZE {
        var s1 := s[TAGSIZE..];
        AlongSplit(s1, Enc(|text|, WORD), text);
        ReadsWord(s1, |text|, WORD);
        if |s1| >= WORD { ReadsBytes(s1[WORD..], text); }
      }
  }

  lemma ObjectTagsFit()
    ensures Fits(OT_NULL, TAGSIZE) && Fits(OT_INTEGER, TAGSIZE) && Fits(OT_BOOL, TAGSIZE)
    ensures Fits(OT_FLOAT, TAGSIZE) && Fits(OT_STRING, TAGSIZE)
    ensures Fits(HEAD, TAGSIZE) && Fits(PART, TAGSIZE) && Fits(TAIL, TAGSIZE)
  {
    TagsFit();
  }

  // -------------------------------------------------------------------- lists

  function WriteWords(ns: seq<nat>): Bytes {
    if ns == [] then [] else Enc(ns[0], WORD) + WriteWords(ns[1..])
  }

  function ReadWords(s: Bytes, k: nat): (r: Parse<seq<nat>>)
    ensures r.Ok? ==> |r.rest| <= |s| && |r.value| == k
    decreases k
  {
    if k == 0 then Ok([], s) else
      var (n, s1) :- ReadWord(s, WORD);
      var (ns, s2) :- ReadWords(s1, k - 1);
      Ok([n] + ns, s2)
  }

  lemma {:induction false} ReadsWords(s: Bytes, ns: seq<nat>)
    requires Along(s, WriteWords(ns)) && forall i :: 0 <= i < |ns| ==> Fits(ns[i], WORD)
    ensures ReadWords(s, |ns|) == Expected(s, WriteWords(ns), ns)
    decreases |ns|
  {
    hide Enc, Fits, Along;
    if ns != [] {
      AlongSplit(s, Enc(ns[0], WORD), WriteWords(ns[1..]));
      ReadsWord(s, ns[0], WORD);
      if |s| >= WORD { ReadsWords(s[WORD..], ns[1..]); }
      Later(s, WORD, |WriteWords(ns[1..])|);
      assert [ns[0]] + ns[1..] == ns;
    } else {
      assert s[0..] == s;
    }
  }

  function WriteAll(vs: seq<Value>): Bytes {
    if vs == [] then [] else Write(vs[0]) + WriteAll(vs[1..])
  }

  function ReadAll(s: Bytes, k: nat): (r: Parse<seq<Value>>)
    ensures r.Ok? ==> |r.rest| <= |s| && |r.value| == k
    decreases k
  {
    if k == 0 then Ok([], s) else
      var (v, s1) :- ReadObject(s);
      var (vs, s2) :- ReadAll(s1, k - 1);
      Ok([v] + vs, s2)
  }

  lemma {:induction false} ReadsAll(s: Bytes, vs: seq<Value>)
    requires Along(s, WriteAll(vs)) && forall i :: 0 <= i < |vs| ==> Writable(vs[i])
    ensures ReadAll(s, |vs|) == Expected(s, WriteAll(vs), vs)
    decreases |vs|
  {
    hide Write, Writable, ReadObject, Along;
    if vs != [] {
      AlongSplit(s, Write(vs[0]), WriteAll(vs[1..]));
      ReadsObject(s, vs[0]);
      if |s| >= |Write(vs[0])| { ReadsAll(s[|Write(vs[0])|..], vs[1..]); }
      Later(s, |Write(vs[0])|, |WriteAll(vs[1..])|);
      assert [vs[0]] + vs[1..] == vs;
    } else {
      assert s[0..] == s;
    }
  }

  /** A captured variable; its kind takes half a word, what fills the other half is unspecified. */
  function WriteOuter(o: OuterVar, junk: Bytes): Bytes {
    (Enc(o.kind, TAGSIZE) + junk) + (Write(o.src) + Write(o.name))
  }

  predicate OuterWritable(o: OuterVar) {
    Fits(o.kind, TAGSIZE) && Writable(o.src) && Writable(o.name)
  }

  function ReadOuter(s: Bytes): (r: Parse<OuterVar>)
    ensures r.Ok? ==> |r.rest| <= |s|
  {
    var (t, s1) :- ReadWord(s, WORD);
    var (src, s2) :- ReadObject(s1);
    var (name, s3) :- ReadObject(s2);
    Ok(OuterVar(t % 0x1_0000_0000, src, name), s3)
  }

  lemma {:induction false} DecJoin(a: Bytes, b: Bytes)
    ensures Dec(a + b) == Dec(a) + Limit(|a|) * Dec(b)
    decreases |a|
  {
    if a == [] { assert a + b == b; } else {
      assert (a + b)[1..] == a[1..] + b;
      DecJoin(a[1..], b);
      assert 256 * (Limit(|a| - 1) * Dec(b)) == Limit(|a|) * Dec(b);
    }
  }

  lemma LowHalf(n: nat, d: nat)
    requires n < 0x1_0000_0000
    ensures (n + 0x1_0000_0000 * d) % 0x1_0000_0000 == n
  {
  }

  lemma ReadsOuter(s: Bytes, o: OuterVar, junk: Bytes)
    requires Along(s, WriteOuter(o, junk)) && OuterWritable(o) && |junk| + TAGSIZE == WORD
    ensures ReadOuter(s) == Expected(s, WriteOuter(o, junk), o)
  {
    hide Enc, Limit, Write, Writable, ReadObject, Along, Dec;
    var w := Enc(o.kind, TAGSIZE) + junk;
    AlongSplit(s, w, Write(o.src) + Write(o.name));
    ReadsBytes(s, w);
    DecEnc(o.kind, TAGSIZE);
    DecJoin(Enc(o.kind, TAGSIZE), junk);
    TagsFit();
    LowHalf(o.kind, Dec(junk));
    if |s| >= WORD {
      var s1 := s[WORD..];
      AlongSplit(s1, Write(o.src), Write(o.name));
      ReadsObject(s1, o.src);
      if |s1| >= |Write(o.src)| { ReadsObject(s1[|Write(o.src)|..], o.name); }
    }
  }

  function WriteOuters(os: seq<OuterVar>, junk: nat -> Bytes): Bytes {
    if os == [] then [] else WriteOuter(os[0], junk(|os|)) + WriteOuters(os[1..], junk)
  }

  function ReadOuters(s: Bytes, k: nat): (r: Parse<seq<OuterVar>>)
    ensures r.Ok? ==> |r.rest| <= |s| && |r.value| == k
    decreases k
  {
    if k == 0 then Ok([], s) else
      var (o, s1) :- ReadOuter(s);
      var (os, s2) :- ReadOuters(s1, k - 1);
      Ok([o] + os, s2)
  }

  /** The unspecified half of a word. */
  ghost predicate Padding(junk: nat -> Bytes) {
    forall i :: |junk(i)| + TAGSIZE == WORD
  }

  lemma {:induction false} ReadsOuters(s: Bytes, os: seq<OuterVar>, junk: nat -> Bytes)
    requires Along(s, WriteOuters(os, junk)) && Padding(junk) && forall i :: 0 <= i < |os| ==> OuterWritable(os[i])
    ensures ReadOuters(s, |os|) == Expected(s, WriteOuters(os, junk), os)
    decreases |os|
  {
    hide WriteOuter, OuterWritable, ReadOuter, Along;
    if os != [] {
      var e := WriteOuter(os[0], junk(|os|));
      AlongSplit(s, e, WriteOuters(os[1..], junk));
      ReadsOuter(s, os[0], junk(|os|));
      if |s| >= |e| { ReadsOuters(s[|e|..], os[1..], junk); }
      Later(s, |e|, |WriteOuters(os[1..], junk)|);
      assert [os[0]] + os[1..] == os;
    } else {
      assert s[0..] == s;
    }
  }

  function WriteLocal(l: LocalInfo): Bytes {
    Write(l.name) + WriteWords([l.pos, l.start, l.end])
  }

  predicate LocalWritable(l: LocalInfo) {
    Writable(l.name) && Fits(l.pos, WORD) && Fits(l.start, WORD) && Fits(l.end, WORD)
  }

  function ReadLocal(s: Bytes): (r: Parse<LocalInfo>)
    ensures r.Ok? ==> |r.rest| <= |s|
  {
    var (name, s1) :- ReadObject(s);
    var (ns, s2) :- ReadWords(s1, 3);
    Ok(LocalInfo(name, ns[0], ns[1], ns[2]), s2)
  }

  lemma ReadsLocal(s: Bytes, l: LocalInfo)
    requires Along(s, WriteLocal(l)) && LocalWritable(l)
    ensures ReadLocal(s) == Expected(s, WriteLocal(l), l)
  {
    hide Write, Writable, ReadObject, Along, WriteWords, ReadWords, Fits;
    var ns := [l.pos, l.start, l.end];
    AlongSplit(s, Write(l.name), WriteWords(ns));
    ReadsObject(s, l.name);
    if |s| >= |Write(l.name)| { ReadsWords(s[|Write(l.name)|..], ns); }
    Later(s, |Write(l.name)|, |WriteWords(ns)|);
  }

  function WriteLocals(ls: seq<LocalInfo>): Bytes {
    if ls == [] then [] else WriteLocal(ls[0]) + WriteLocals(ls[1..])
  }

  function ReadLocals(s: Bytes, k: nat): (r: Parse<seq<LocalInfo>>)
    ensures r.Ok? ==> |r.rest| <= |s| && |r.value| == k
    decreases k
  {
    if k == 0 then Ok([], s) else
      var (l, s1) :- ReadLocal(s);
      var (ls, s2) :- ReadLocals(s1, k - 1);
      Ok([l] + ls, s2)
  }

  lemma {:induction false} ReadsLocals(s: Bytes, ls: seq<LocalInfo>)
    requires Along(s, WriteLocals(ls)) && forall i :: 0 <= i < |ls| ==> LocalWritable(ls[i])
    ensures ReadLocals(s, |ls|) == Expected(s, WriteLocals(ls), ls)
    decreases |ls|
  {
    hide WriteLocal, LocalWritable, ReadLocal, Along;
    if ls != [] {
      var e := WriteLocal(ls[0]);
      AlongSplit(s, e, WriteLocals(ls[1..]));
      ReadsLocal(s, ls[0]);
      if |s| >= |e| { ReadsLocals(s[|e|..], ls[1..]); }
      Later(s, |e|, |WriteLocals(ls[1..])|);
      assert [ls[0]] + ls[1..] == ls;
    } else {
      assert s[0..] == s;
    }
  }

  // ----------------------------------------------------------------- sections

  function PartValues(vs: seq<Value>): Bytes { Enc(PART, TAGSIZE) + WriteAll(vs) }

  function ReadPartValues(s: Bytes, k: nat): (r: Parse<seq<Value>>)
    ensures r.Ok? ==> |r.rest| < |s| && |r.value| == k
  {
    var (_, s1) :- CheckTag(s, PART);
    ReadAll(s1, k)
  }

  lemma ReadsPartValues(s: Bytes, vs: seq<Value>)
    requires Along(s, PartValues(vs)) && forall i :: 0 <= i < |vs| ==> Writable(vs[i])
    ensures ReadPartValues(s, |vs|) == Expected(s, PartValues(vs), vs)
  {
    hide Enc, Along, WriteAll, ReadAll, Fits;
    ObjectTagsFit();
    AlongSplit(s, Enc(PART, TAGSIZE), WriteAll(vs));
    ReadsTag(s, PART);
    if |s| >= TAGSIZE { ReadsAll(s[TAGSIZE..], vs); }
    Later(s, TAGSIZE, |WriteAll(vs)|);
  }

  function PartOuters(os: seq<OuterVar>, junk: nat -> Bytes): Bytes { Enc(PART, TAGSIZE) + WriteOuters(os, junk) }

  function ReadPartOuters(s: Bytes, k: nat): (r: Parse<seq<OuterVar>>)
    ensures r.Ok? ==> |r.rest| < |s| && |r.value| == k
  {
    var (_, s1) :- CheckTag(s, PART);
    ReadOuters(s1, k)
  }

  lemma ReadsPartOuters(s: Bytes, os: seq<OuterVar>, junk: nat -> Bytes)
    requires Along(s, PartOuters(os, junk)) && Padding(junk) && forall i :: 0 <= i < |os| ==> OuterWritable(os[i])
    ensures ReadPartOuters(s, |os|) == Expected(s, PartOuters(os, junk), os)
  {
    hide Enc, Along, WriteOuters, ReadOuters, Fits;
    ObjectTagsFit();
    AlongSplit(s, Enc(PART, TAGSIZE), WriteOuters(os, junk));
    ReadsTag(s, PART);
    if |s| >= TAGSIZE { ReadsOuters(s[TAGSIZE..], os, junk); }
    Later(s, TAGSIZE, |WriteOuters(os, junk)|);
  }

  function PartLocals(ls: seq<LocalInfo>): Bytes { Enc(PART, TAGSIZE) + WriteLocals(ls) }

  function ReadPartLocals(s: Bytes, k: nat): (r: Parse<seq<LocalInfo>>)
    ensures r.Ok? ==> |r.rest| < |s| && |r.value| == k
  {
    var (_, s1) :- CheckTag(s, PART);
    ReadLocals(s1, k)
  }

  lemma ReadsPartLocals(s: Bytes, ls: seq<LocalInfo>)
    requires Along(s, PartLocals(ls)) && forall i :: 0 <= i < |ls| ==> LocalWritable(ls[i])
    ensures ReadPartLocals(s, |ls|) == Expected(s, PartLocals(ls), ls)
  {
    hide Enc, Along, WriteLocals, ReadLocals, Fits;
    ObjectTagsFit();
    AlongSplit(s, Enc(PART, TAGSIZE), WriteLocals(ls));
    ReadsTag(s, PART);
    if |s| >= TAGSIZE { ReadsLocals(s[TAGSIZE..], ls); }
    Later(s, TAGSIZE, |WriteLocals(ls)|);
  }

  function PartBlock(b: Bytes): Bytes { Enc(PART, TAGSIZE) + b }

  function ReadPartBlock(s: Bytes, k: nat): (r: Parse<Bytes>)
    ensures r.Ok? ==> |r.rest| < |s| && |r.value| == k
  {
    var (_, s1) :- CheckTag(s, PART);
    Read(s1, k)
  }

  lemma ReadsPartBlock(s: Bytes, b: Bytes)
    requires Along(s, PartBlock(b))
    ensures ReadPartBlock(s, |b|) == Expected(s, PartBlock(b), b)
  {
    hide Enc, Along, Read, Fits;
    ObjectTagsFit();
    AlongSplit(s, Enc(PART, TAGSIZE), b);
    ReadsTag(s, PART);
    if |s| >= TAGSIZE { ReadsBytes(s[TAGSIZE..], b); }
    Later(s, TAGSIZE, |b|);
  }

  // ---------------------------------------------------------------- functions

  datatype Lists = Lists(literals: seq<Value>, params: seq<Value>, outers: seq<OuterVar>, locals: seq<LocalInfo>)
  datatype Blocks = Blocks(lines: Bytes, defaults: Bytes, code: Bytes)

  /** The counts, in the order they are written. */
  function Counts(p: Proto): (r: seq<nat>)
    ensures |r| == 8
  {
    [|p.literals|, |p.params|, |p.outers|, |p.locals|, |p.lines| / LINESIZE, |p.defaults| / WORD, |p.code| / INSTRSIZE, |p.functions|]
  }

  function SaveHead(p: Proto): Bytes {
    Enc(PART, TAGSIZE) + (Write(p.source) + (Write(p.name) + (Enc(PART, TAGSIZE) + WriteWords(Counts(p)))))
  }

  function SaveLists(p: Proto, junk: nat -> Bytes): Bytes {
    PartValues(p.literals) + (PartValues(p.params) + (PartOuters(p.outers, junk) + PartLocals(p.locals)))
  }

  function SaveBlocks(p: Proto): Bytes {
    PartBlock(p.lines) + (PartBlock(p.defaults) + PartBlock(p.code))
  }

  function SaveTail(p: Proto): Bytes {
    Enc(p.stackSize, WORD) + ([p.generator] + Enc(p.varparams, WORD))
  }

  function Save(p: Proto, junk: nat -> Bytes): Bytes
    decreases p
  {
    SaveHead(p) + (SaveLists(p, junk) + (SaveBlocks(p) + (Enc(PART, TAGSIZE) + (SaveAll(p.functions, junk) + SaveTail(p)))))
  }

  function SaveAll(ps: seq<Proto>, junk: nat -> Bytes): Bytes
    decreases ps
  {
    if ps == [] then [] else Save(ps[0], junk) + SaveAll(ps[1..], junk)
  }

  /** Saving succeeds: every value in the tree is of a type that can be written. */
  predicate Savable(p: Proto)
    decreases p
  {
    && Writable(p.source) && Writable(p.name)
    && (forall i :: 0 <= i < |p.literals| ==> Writable(p.literals[i]))
    && (forall i :: 0 <= i < |p.params| ==> Writable(p.params[i]))
    && (forall i :: 0 <= i < |p.outers| ==> OuterWritable(p.outers[i]))
    && (forall i :: 0 <= i < |p.locals| ==> LocalWritable(p.locals[i]))
    && |p.lines| % LINESIZE == 0 && |p.defaults| % WORD == 0 && |p.code| % INSTRSIZE == 0
    && (forall i :: 0 <= i < 8 ==> Fits(Counts(p)[i], WORD))
    && Fits(p.stackSize, WORD) && Fits(p.varparams, WORD)
    && (forall i :: 0 <= i < |p.functions| ==> Savable(p.functions[i]))
  }

  function LoadHead(s: Bytes): (r: Parse<(Value, Value, seq<nat>)>)
    ensures r.Ok? ==> |r.rest| < |s| && |r.value.2| == 8
  {
    var (_, s1) :- CheckTag(s, PART);
    var (source, s2) :- ReadObject(s1);
    var (name, s3) :- ReadObject(s2);
    var (_, s4) :- CheckTag(s3, PART);
    var (ns, s5) :- ReadWords(s4, 8);
    Ok((source, name, ns), s5)
  }

  function LoadLists(s: Bytes, ns: seq<nat>): (r: Parse<Lists>)
    requires |ns| == 8
    ensures r.Ok? ==> |r.rest| <= |s|
  {
    var (literals, s1) :- ReadPartValues(s, ns[0]);
    var (params, s2) :- ReadPartValues(s1, ns[1]);
    var (outers, s3) :- ReadPartOuters(s2, ns[2]);
    var (locals, s4) :- ReadPartLocals(s3, ns[3]);
    Ok(Lists(literals, params, outers, locals), s4)
  }

  function LoadBlocks(s: Bytes, ns: seq<nat>): (r: Parse<Blocks>)
    requires |ns| == 8
    ensures r.Ok? ==> |r.rest| <= |s|
  {
    var (lines, s1) :- ReadPartBlock(s, LINESIZE * ns[4]);
    var (defaults, s2) :- ReadPartBlock(s1, WORD * ns[5]);
    var (code, s3) :- ReadPartBlock(s2, INSTRSIZE * ns[6]);
    Ok(Blocks(lines, defaults, code), s3)
  }

  function LoadTail(s: Bytes): (r: Parse<(nat, Byte, nat)>)
    ensures r.Ok? ==> |r.rest| <= |s|
  {
    var (size, s1) :- ReadWord(s, WORD);
    var (g, s2) :- Read(s1, 1);
    var (v, s3) :- ReadWord(s2, WORD);
    Ok((size, g[0], v), s3)
  }

  function Load(s: Bytes): (r: Parse<Proto>)
    ensures r.Ok? ==> |r.rest| < |s|
    decreases |s|, 0
  {
    var (head, s1) :- LoadHead(s);
    var (lists, s2) :- LoadLists(s1, head.2);
    var (blocks, s3) :- LoadBlocks(s2, head.2);
    var (_, s4) :- CheckTag(s3, PART);
    var (functions, s5) :- LoadAll(s4, head.2[7]);
    var (tail, s6) :- LoadTail(s5);
    Ok(Proto(head.0, head.1, lists.literals, lists.params, lists.outers, lists.locals,
             blocks.lines, blocks.defaults, blocks.code, functions, tail.0, tail.1, tail.2), s6)
  }

  function LoadAll(s: Bytes, k: nat): (r: Parse<seq<Proto>>)
    ensures r.Ok? ==> |r.rest| <= |s| && |r.value| == k
    decreases |s|, k + 1
  {
    if k == 0 then Ok([], s) else
      var (p, s1) :- Load(s);
      var (ps, s2) :- LoadAll(s1, k - 1);
      Ok([p] + ps, s2)
  }

  lemma ReadsHead(s: Bytes, p: Proto)
    requires Along(s, SaveHead(p)) && Savable(p)
    ensures LoadHead(s) == Expected(s, SaveHead(p), (p.source, p.name, Counts(p)))
  {
    hide Enc, Along, Write, ReadObject, WriteWords, ReadWords, CheckTag, Fits, Counts;
    ObjectTagsFit();
    var ns := Counts(p);
    var tag, a, b, c := Enc(PART, TAGSIZE), Write(p.source), Write(p.name), WriteWords(ns);
    AlongSplit(s, tag, a + (b + (tag + c)));
    ReadsTag(s, PART);
    if |s| >= TAGSIZE {
      var s1 := s[TAGSIZE..];
      AlongSplit(s1, a, b + (tag + c));
      ReadsObject(s1, p.source);
      if |s1| >= |a| {
        var s2 := s1[|a|..];
        Later(s, TAGSIZE, |a|);
        AlongSplit(s2, b, tag + c);
        ReadsObject(s2, p.name);
        if |s2| >= |b| {
          var s3 := s2[|b|..];
          AlongSplit(s3, tag, c);
          ReadsTag(s3, PART);
          if |s3| >= TAGSIZE { ReadsWords(s3[TAGSIZE..], ns); }
        }
      }
    }
  }

  lemma ReadsLists(s: Bytes, p: Proto, junk: nat -> Bytes)
    requires Along(s, SaveLists(p, junk)) && Savable(p) && Padding(junk)
    ensures LoadLists(s, Counts(p)) == Expected(s, SaveLists(p, junk), Lists(p.literals, p.params, p.outers, p.locals))
  {
    hide Along, Writable, OuterWritable, LocalWritable, Fits, PartValues, PartOuters, PartLocals, ReadPartValues,
        ReadPartOuters, ReadPartLocals;
    var a, b, c, d := PartValues(p.literals), PartValues(p.params), PartOuters(p.outers, junk), PartLocals(p.locals);
    AlongSplit(s, a, b + (c + d));
    ReadsPartValues(s, p.literals);
    if |s| >= |a| {
      var s1 := s[|a|..];
      AlongSplit(s1, b, c + d);
      ReadsPartValues(s1, p.params);
      if |s1| >= |b| {
        var s2 := s1[|b|..];
        AlongSplit(s2, c, d);
        ReadsPartOuters(s2, p.outers, junk);
        if |s2| >= |c| { ReadsPartLocals(s2[|c|..], p.locals); }
      }
    }
  }

  lemma WholeRecords(n: nat, k: nat)
    requires k > 0 && n % k == 0
    ensures k * (n / k) == n
  {
  }

  lemma ReadsBlocks(s: Bytes, p: Proto)
    requires Along(s, SaveBlocks(p)) && Savable(p)
    ensures LoadBlocks(s, Counts(p)) == Expected(s, SaveBlocks(p), Blocks(p.lines, p.defaults, p.code))
  {
    hide Along, Writable, OuterWritable, LocalWritable, Fits, PartBlock, ReadPartBlock;
    WholeRecords(|p.lines|, LINESIZE);
    WholeRecords(|p.defaults|, WORD);
    WholeRecords(|p.code|, INSTRSIZE);
    var a, b, c := PartBlock(p.lines), PartBlock(p.defaults), PartBlock(p.code);
    AlongSplit(s, a, b + c);
    ReadsPartBlock(s, p.lines);
    if |s| >= |a| {
      var s1 := s[|a|..];
      AlongSplit(s1, b, c);
      ReadsPartBlock(s1, p.defaults);
      if |s1| >= |b| { ReadsPartBlock(s1[|b|..], p.code); }
    }
  }

  lemma ReadsTail(s: Bytes, p: Proto)
    requires Along(s, SaveTail(p)) && Fits(p.stackSize, WORD) && Fits(p.varparams, WORD)
    ensures LoadTail(s) == Expected(s, SaveTail(p), (p.stackSize, p.generator, p.varparams))
  {
    hide Enc, Along, Fits;
    var a, b, c := Enc(p.stackSize, WORD), [p.generator], Enc(p.varparams, WORD);
    AlongSplit(s, a, b + c);
    ReadsWord(s, p.stackSize, WORD);
    if |s| >= |a| {
      var s1 := s[|a|..];
      AlongSplit(s1, b, c);
      ReadsBytes(s1, b);
      if |s1| >= |b| { ReadsWord(s1[|b|..], p.varparams, WORD); }
    }
  }

  /** Any stream that runs along a saved function gives that function back and
      leaves the rest, or fails if it stops short. */
  lemma {:induction false} ReadsProto(s: Bytes, p: Proto, junk: nat -> Bytes)
    requires Along(s, Save(p, junk)) && Savable(p) && Padding(junk)
    ensures Load(s) == Expected(s, Save(p, junk), p)
    decreases p
  {
    hide Along, Enc, Fits, SaveHead, SaveLists, SaveBlocks, SaveTail, LoadHead, LoadLists, LoadBlocks, LoadTail, CheckTag, SaveAll, Counts;
    ObjectTagsFit();
    var a, b, c, d, e, f := SaveHead(p), SaveLists(p, junk), SaveBlocks(p), Enc(PART, TAGSIZE), SaveAll(p.functions, junk), SaveTail(p);
    AlongSplit(s, a, b + (c + (d + (e + f))));
    ReadsHead(s, p);
    if |s| >= |a| {
      var s1 := s[|a|..];
      AlongSplit(s1, b, c + (d + (e + f)));
      ReadsLists(s1, p, junk);
      if |s1| >= |b| {
        var s2 := s1[|b|..];
        AlongSplit(s2, c, d + (e + f));
        ReadsBlocks(s2, p);
        if |s2| >= |c| {
          var s3 := s2[|c|..];
          AlongSplit(s3, d, e + f);
          ReadsTag(s3, PART);
          if |s3| >= |d| {
            var s4 := s3[|d|..];
            AlongSplit(s4, e, f);
            ReadsProtos(s4, p.functions, junk);
            LastCount(p);
            if |s4| >= |e| { ReadsTail(s4[|e|..], p); }
          }
        }
      }
    }
  }

  lemma LastCount(p: Proto)
    ensures Counts(p)[7] == |p.functions|
  {
  }

  lemma {:induction false} ReadsProtos(s: Bytes, ps: seq<Proto>, junk: nat -> Bytes)
    requires Along(s, SaveAll(ps, junk)) && Padding(junk) && forall i :: 0 <= i < |ps| ==> Savable(ps[i])
    ensures LoadAll(s, |ps|) == Expected(s, SaveAll(ps, junk), ps)
    decreases ps
  {
    hide Along, Save, Savable, Load;
    if ps != [] {
      var e := Save(ps[0], junk);
      AlongSplit(s, e, SaveAll(ps[1..], junk));
      ReadsProto(s, ps[0], junk);
      if |s| >= |e| { ReadsProtos(s[|e|..], ps[1..], junk); }
      Later(s, |e|, |SaveAll(ps[1..], junk)|);
      assert [ps[0]] + ps[1..] == ps;
    } else {
      assert s[0..] == s;
    }
  }

  // ------------------------------------------------------------------ closures

  /** The head of a stream: its tag and the sizes of a character, an integer and a float. */
  function StreamHead(): Bytes {
    Enc(HEAD, TAGSIZE) + (Enc(1, TAGSIZE) + (Enc(WORD, TAGSIZE) + Enc(FLOATSIZE, TAGSIZE)))
  }

  function SaveClosure(p: Proto, junk: nat -> Bytes): Bytes {
    StreamHead() + (Save(p, junk) + Enc(TAIL, TAGSIZE))
  }

  function LoadStreamHead(s: Bytes): (r: Parse<nat>)
    ensures r.Ok? ==> |r.rest| <= |s|
  {
    var (_, s1) :- CheckTag(s, HEAD);
    var (_, s2) :- CheckTag(s1, 1);
    var (_, s3) :- CheckTag(s2, WORD);
    var (_, s4) :- CheckTag(s3, FLOATSIZE);
    Ok(0, s4)
  }

  function LoadClosure(s: Bytes): Parse<Proto> {
    var (_, s1) :- LoadStreamHead(s);
    var (p, s2) :- Load(s1);
    var (_, s3) :- CheckTag(s2, TAIL);
    Ok(p, s3)
  }

  lemma ReadsStreamHead(s: Bytes)
    requires Along(s, StreamHead())
    ensures LoadStreamHead(s) == Expected(s, StreamHead(), 0)
  {
    hide Enc, Along, CheckTag, Fits;
    ObjectTagsFit();
    SizesFit();
    var a, b, c, d := Enc(HEAD, TAGSIZE), Enc(1, TAGSIZE), Enc(WORD, TAGSIZE), Enc(FLOATSIZE, TAGSIZE);
    AlongSplit(s, a, b + (c + d));
    ReadsTag(s, HEAD);
    if |s| >= |a| {
      var s1 := s[|a|..];
      AlongSplit(s1, b, c + d);
      ReadsTag(s1, 1);
      if |s1| >= |b| {
        var s2 := s1[|b|..];
        AlongSplit(s2, c, d);
        ReadsTag(s2, WORD);
        if |s2| >= |c| { ReadsTag(s2[|c|..], FLOATSIZE); }
      }
    }
  }

  lemma SizesFit()
    ensures Fits(1, TAGSIZE) && Fits(WORD, TAGSIZE) && Fits(FLOATSIZE, TAGSIZE)
  {
    TagsFit();
  }

  lemma ReadsClosure(s: Bytes, p: Proto, junk: nat -> Bytes)
    requires Along(s, SaveClosure(p, junk)) && Savable(p) && Padding(junk)
    ensures LoadClosure(s) == Expected(s, SaveClosure(p, junk), p)
  {
    hide Enc, Along, CheckTag, Fits, Save, Load, Savable, StreamHead, LoadStreamHead;
    ObjectTagsFit();
    var a, b, c := StreamHead(), Save(p, junk), Enc(TAIL, TAGSIZE);
    AlongSplit(s, a, b + c);
    ReadsStreamHead(s);
    if |s| >= |a| {
      var s1 := s[|a|..];
      AlongSplit(s1, b, c);
      ReadsProto(s1, p, junk);
      if |s1| >= |b| { ReadsTag(s1[|b|..], TAIL); }
    }
  }

  /** A saved closure loads back to an equal function and leaves what follows unread. */
  lemma RoundTrip(p: Proto, junk: nat -> Bytes, rest: Bytes)
    requires Savable(p) && Padding(junk)
    ensures LoadClosure(SaveClosure(p, junk) + rest) == Ok(p, rest)
  {
    hide SaveClosure, LoadClosure, Savable;
    ReadsClosure(SaveClosure(p, junk) + rest, p, junk);
  }

  /** No stream cut short loads. */
  lemma NoPrefixLoads(p: Proto, junk: nat -> Bytes, n: nat)
    requires Savable(p) && Padding(junk) && n < |SaveClosure(p, junk)|
    ensures LoadClosure(SaveClosure(p, junk)[..n]) == Fail
  {
    hide SaveClosure, LoadClosure, Savable;
    ReadsClosure(SaveClosure(p, junk)[..n], p, junk);
  }

  /** Different functions have different streams. */
  lemma SavedApart(p: Proto, q: Proto, junk: nat -> Bytes, junk': nat -> Bytes)
    requires Savable(p) && Savable(q) && Padding(junk) && Padding(junk') && SaveClosure(p, junk) == SaveClosure(q, junk')
    ensures p == q
  {
    hide SaveClosure, LoadClosure, Savable;
    RoundTrip(p, junk, []);
    RoundTrip(q, junk', []);
  }

  // ------------------------------------------------------------------ streams

  lemma {:induction false} WriteAllSnoc(vs: seq<Value>, v: Value)
    ensures WriteAll(vs + [v]) == WriteAll(vs) + Write(v)
    decreases |vs|
  {
    if vs == [] {
      assert [v][1..] == [] && [] + [v] == [v];
    } else {
      assert (vs + [v])[1..] == vs[1..] + [v];
      WriteAllSnoc(vs[1..], v);
    }
  }

  lemma {:induction false} WriteLocalsSnoc(ls: seq<LocalInfo>, l: LocalInfo)
    ensures WriteLocals(ls + [l]) == WriteLocals(ls) + WriteLocal(l)
    decreases |ls|
  {
    if ls == [] {
      assert [l][1..] == [] && [] + [l] == [l];
    } else {
      assert (ls + [l])[1..] == ls[1..] + [l];
      WriteLocalsSnoc(ls[1..], l);
    }
  }

  lemma {:induction false} SaveAllSnoc(ps: seq<Proto>, p: Proto, junk: nat -> Bytes)
    ensures SaveAll(ps + [p], junk) == SaveAll(ps, junk) + Save(p, junk)
    decreases |ps|
  {
    hide Save;
    if ps == [] {
      assert [p][1..] == [] && [] + [p] == [p];
    } else {
      assert (ps + [p])[1..] == ps[1..] + [p];
      SaveAllSnoc(ps[1..], p, junk);
    }
  }

  /** Every value in the function and its inner functions is of a type that can be written. */
  predicate Serial(p: Proto)
    decreases p
  {
    && !p.source.Other? && !p.name.Other?
    && (forall i :: 0 <= i < |p.literals| ==> !p.literals[i].Other?)
    && (forall i :: 0 <= i < |p.params| ==> !p.params[i].Other?)
    && (forall i :: 0 <= i < |p.outers| ==> !p.outers[i].src.Other? && !p.outers[i].name.Other?)
    && (forall i :: 0 <= i < |p.locals| ==> !p.locals[i].name.Other?)
    && (forall i :: 0 <= i < |p.functions| ==> Serial(p.functions[i]))
  }

  lemma Regroup(o: Bytes, a: Bytes, b: Bytes, c: Bytes, d: Bytes, e: Bytes, f: Bytes)
    ensures o + a + b + c + (d + e) + f == o + (a + (b + (c + (d + (e + f)))))
  {
  }

  /** A stream being written. */
  class Writer {
    var out: Bytes

    method SafeWrite(b: Bytes)
      modifies this
      ensures out == old(out) + b
    {
      out := out + b;
    }

    method WriteObject(o: Value) returns (ok: bool)
      modifies this
      ensures ok <==> !o.Other?
      ensures out == old(out) + Write(o)
    {
      hide Enc;
      var tag := match o case Null => OT_NULL case Integer(_) => OT_INTEGER case Bool(_) => OT_BOOL
                         case Float(_) => OT_FLOAT case Str(_) => OT_STRING case Other(t) => t;
      SafeWrite(Enc(tag, TAGSIZE));
      match o
      case Null => return true;
      case Integer(i) => SafeWrite(Enc(i, WORD)); return true;
      case Bool(i) => SafeWrite(Enc(i, WORD)); return true;
      case Float(raw) => SafeWrite(raw); return true;
      case Str(text) => SafeWrite(Enc(|text|, WORD)); SafeWrite(text); return true;
      case Other(_) => return false;
    }

    method WriteValues(vs: seq<Value>) returns (ok: bool)
      modifies this
      ensures ok <==> forall i :: 0 <= i < |vs| ==> !vs[i].Other?
      ensures ok ==> out == old(out) + PartValues(vs)
    {
      hide Enc, Write;
      SafeWrite(Enc(PART, TAGSIZE));
      for i := 0 to |vs|
        invariant forall j :: 0 <= j < i ==> !vs[j].Other?
        invariant out == old(out) + (Enc(PART, TAGSIZE) + WriteAll(vs[..i]))
      {
        ok := WriteObject(vs[i]);
        if !ok { return; }
        WriteAllSnoc(vs[..i], vs[i]);
        assert vs[..i] + [vs[i]] == vs[..i + 1];
      }
      assert vs[..|vs|] == vs;
      ok := true;
    }

    method WriteOuterVars(os: seq<OuterVar>, junk: nat -> Bytes) returns (ok: bool)
      modifies this
      ensures ok <==> forall i :: 0 <= i < |os| ==> !os[i].src.Other? && !os[i].name.Other?
      ensures ok ==> out == old(out) + PartOuters(os, junk)
    {
      hide Enc, WriteOuter;
      SafeWrite(Enc(PART, TAGSIZE));
      for i := 0 to |os|
        invariant forall j :: 0 <= j < i ==> !os[j].src.Other? && !os[j].name.Other?
        invariant out + WriteOuters(os[i..], junk) == old(out) + (Enc(PART, TAGSIZE) + WriteOuters(os, junk))
      {
        assert os[i..][1..] == os[i + 1..] && |os[i..]| == |os| - i;
        ok := WriteOuterVar(os[i], junk(|os| - i));
        if !ok { return; }
      }
      ok := true;
    }

    method WriteOuterVar(o: OuterVar, junk: Bytes) returns (ok: bool)
      modifies this
      ensures ok <==> !o.src.Other? && !o.name.Other?
      ensures ok ==> out == old(out) + WriteOuter(o, junk)
    {
      hide Enc, Write;
      SafeWrite(Enc(o.kind, TAGSIZE) + junk);
      ok := WriteObject(o.src);
      if !ok { return; }
      ok := WriteObject(o.name);
    }

    method WriteLocalInfos(ls: seq<LocalInfo>) returns (ok: bool)
      modifies this
      ensures ok <==> forall i :: 0 <= i < |ls| ==> !ls[i].name.Other?
      ensures ok ==> out == old(out) + PartLocals(ls)
    {
      hide Enc, Write;
      SafeWrite(Enc(PART, TAGSIZE));
      for i := 0 to |ls|
        invariant forall j :: 0 <= j < i ==> !ls[j].name.Other?
        invariant out == old(out) + (Enc(PART, TAGSIZE) + WriteLocals(ls[..i]))
      {
        ok := WriteObject(ls[i].name);
        if !ok { return; }
        SafeWrite(WriteWords([ls[i].pos, ls[i].start, ls[i].end]));
        WriteLocalsSnoc(ls[..i], ls[i]);
        assert ls[..i] + [ls[i]] == ls[..i + 1];
      }
      assert ls[..|ls|] == ls;
      ok := true;
    }

    method WriteHead(p: Proto) returns (ok: bool)
      modifies this
      ensures ok <==> !p.source.Other? && !p.name.Other?
      ensures ok ==> out == old(out) + SaveHead(p)
    {
      hide Enc, Write, WriteWords, Counts;
      SafeWrite(Enc(PART, TAGSIZE));
      ok := WriteObject(p.source);
      if !ok { return; }
      ok := WriteObject(p.name);
      if !ok { return; }
      SafeWrite(Enc(PART, TAGSIZE));
      SafeWrite(WriteWords(Counts(p)));
    }

    method WriteLists(p: Proto, junk: nat -> Bytes) returns (ok: bool)
      modifies this
      ensures ok <==> && (forall i :: 0 <= i < |p.literals| ==> !p.literals[i].Other?)
                      && (forall i :: 0 <= i < |p.params| ==> !p.params[i].Other?)
                      && (forall i :: 0 <= i < |p.outers| ==> !p.outers[i].src.Other? && !p.outers[i].name.Other?)
                      && (forall i :: 0 <= i < |p.locals| ==> !p.locals[i].name.Other?)
      ensures ok ==> out == old(out) + SaveLists(p, junk)
    {
      hide PartValues, PartOuters, PartLocals;
      ok := WriteValues(p.literals);
      if !ok { return; }
      ok := WriteValues(p.params);
      if !ok { return; }
      ok := WriteOuterVars(p.outers, junk);
      if !ok { return; }
      ok := WriteLocalInfos(p.locals);
    }

    method WriteBlocks(p: Proto)
      modifies this
      ensures out == old(out) + SaveBlocks(p)
    {
      hide PartBlock;
      SafeWrite(PartBlock(p.lines));
      SafeWrite(PartBlock(p.defaults));
      SafeWrite(PartBlock(p.code));
    }

    method WriteTail(p: Proto)
      modifies this
      ensures out == old(out) + SaveTail(p)
    {
      hide Enc;
      SafeWrite(Enc(p.stackSize, WORD));
      SafeWrite([p.generator]);
      SafeWrite(Enc(p.varparams, WORD));
    }

    /** Writes a function and its inner functions; it fails exactly when some value has no stream form. */
    method SaveProto(p: Proto, junk: nat -> Bytes) returns (ok: bool)
      modifies this
      ensures ok <==> Serial(p)
      ensures ok ==> out == old(out) + Save(p, junk)
      decreases p
    {
      hide Enc, SaveHead, SaveLists, SaveBlocks, SaveTail, SaveAll;
      ok := WriteHead(p);
      if !ok { return; }
      ok := WriteLists(p, junk);
      if !ok { return; }
      WriteBlocks(p);
      ok := SaveProtos(p.functions, junk);
      if !ok { return; }
      WriteTail(p);
      Regroup(old(out), SaveHead(p), SaveLists(p, junk), SaveBlocks(p), Enc(PART, TAGSIZE), SaveAll(p.functions, junk), SaveTail(p));
    }

    method SaveProtos(ps: seq<Proto>, junk: nat -> Bytes) returns (ok: bool)
      modifies this
      ensures ok <==> forall i :: 0 <= i < |ps| ==> Serial(ps[i])
      ensures ok ==> out == old(out) + (Enc(PART, TAGSIZE) + SaveAll(ps, junk))
      decreases ps
    {
      hide Enc, Save, Serial;
      SafeWrite(Enc(PART, TAGSIZE));
      for i := 0 to |ps|
        invariant forall j :: 0 <= j < i ==> Serial(ps[j])
        invariant out == old(out) + (Enc(PART, TAGSIZE) + SaveAll(ps[..i], junk))
      {
        ok := SaveProto(ps[i], junk);
        if !ok { return; }
        SaveAllSnoc(ps[..i], ps[i], junk);
        assert ps[..i] + [ps[i]] == ps[..i + 1];
      }
      assert ps[..|ps|] == ps;
      ok := true;
    }
  }

  /** The result of a reading method agrees with the reader function. */
  ghost predicate Gives<T>(p: Parse<T>, r: Option<T>, rest: Bytes) {
    if p.Ok? then r == Some(p.value) && rest == p.rest else r.None?
  }

  function Prepend<T>(acc: seq<T>, p: Parse<seq<T>>): Parse<seq<T>> {
    if p.Ok? then Ok(acc + p.value, p.rest) else Fail
  }

  lemma PrependNone<T>(p: Parse<seq<T>>)
    ensures p == Prepend([], p)
  {
    if p.Ok? { assert [] + p.value == p.value; }
  }

  lemma PrependMore<T>(acc: seq<T>, v: T, p: Parse<seq<T>>)
    ensures Prepend(acc + [v], p) == if p.Ok? then Prepend(acc, Ok([v] + p.value, p.rest)) else Fail
  {
    if p.Ok? { assert acc + [v] + p.value == acc + ([v] + p.value); }
  }

  lemma PrependEnd<T>(acc: seq<T>, s: Bytes)
    ensures Prepend(acc, Ok([], s)) == Ok(acc, s)
  {
    assert acc + [] == acc;
  }

  /** A stream being read. */
  class Reader {
    var rest: Bytes

    method SafeRead(n: nat) returns (r: Option<Bytes>)
      modifies this
      ensures Gives(Read(old(rest), n), r, rest)
    {
      if |rest| < n { return None; }
      r := Some(rest[..n]);
      rest := rest[n..];
    }

    method Word(k: nat) returns (r: Option<nat>)
      modifies this
      ensures Gives(ReadWord(old(rest), k), r, rest)
    {
      var b := SafeRead(k);
      if b.None? { return None; }
      return Some(Dec(b.value));
    }

    method ExpectTag(tag: nat) returns (ok: bool)
      modifies this
      ensures Gives(CheckTag(old(rest), tag), if ok then Some(tag) else None, rest)
    {
      hide Dec;
      var t := Word(TAGSIZE);
      return t == Some(tag);
    }

    method Object() returns (r: Option<Value>)
      modifies this
      ensures Gives(ReadObject(old(rest)), r, rest)
    {
      hide Dec;
      var t := Word(TAGSIZE);
      if t.None? { return None; }
      if t.value == OT_STRING {
        var n := Word(WORD);
        if n.None? { return None; }
        var text := SafeRead(n.value);
        if text.None? { return None; }
        return Some(Str(text.value));
      } else if t.value == OT_INTEGER {
        var i := Word(WORD);
        if i.None? { return None; }
        return Some(Integer(i.value));
      } else if t.value == OT_BOOL {
        var i := Word(WORD);
        if i.None? { return None; }
        return Some(Bool(i.value));
      } else if t.value == OT_FLOAT {
        var raw := SafeRead(FLOATSIZE);
        if raw.None? { return None; }
        return Some(Float(raw.value));
      } else if t.value == OT_NULL {
        return Some(Null);
      }
      return None;
    }

    method Words(k: nat) returns (r: Option<seq<nat>>)
      modifies this
      ensures Gives(ReadWords(old(rest), k), r, rest)
    {
      hide ReadWord;
      ghost var s := rest;
      var acc: seq<nat> := [];
      PrependNone(ReadWords(s, k));
      for i := 0 to k
        invariant |acc| == i && ReadWords(s, k) == Prepend(acc, ReadWords(rest, k - i))
      {
        var v := Word(WORD);
        if v.None? { return None; }
        PrependMore(acc, v.value, ReadWords(rest, k - i - 1));
        acc := acc + [v.value];
      }
      PrependEnd(acc, rest);
      return Some(acc);
    }

    method OuterEntry() returns (r: Option<OuterVar>)
      modifies this
      ensures Gives(ReadOuter(old(rest)), r, rest)
    {
      hide ReadWord, ReadObject;
      var t := Word(WORD);
      if t.None? { return None; }
      var src := Object();
      if src.None? { return None; }
      var name := Object();
      if name.None? { return None; }
      return Some(OuterVar(t.value % 0x1_0000_0000, src.value, name.value));
    }

    method LocalEntry() returns (r: Option<LocalInfo>)
      modifies this
      ensures Gives(ReadLocal(old(rest)), r, rest)
    {
      hide ReadWords, ReadObject;
      var name := Object();
      if name.None? { return None; }
      var ns := Words(3);
      if ns.None? { return None; }
      return Some(LocalInfo(name.value, ns.value[0], ns.value[1], ns.value[2]));
    }

    method LoadValues(n: nat) returns (r: Option<seq<Value>>)
      modifies this
      ensures Gives(ReadPartValues(old(rest), n), r, rest)
    {
      hide ReadObject, CheckTag;
      var tagged := ExpectTag(PART);
      if !tagged { return None; }
      ghost var s := rest;
      var acc: seq<Value> := [];
      PrependNone(ReadAll(s, n));
      for i := 0 to n
        invariant |acc| == i && ReadAll(s, n) == Prepend(acc, ReadAll(rest, n - i))
      {
        var v := Object();
        if v.None? { return None; }
        PrependMore(acc, v.value, ReadAll(rest, n - i - 1));
        acc := acc + [v.value];
      }
      PrependEnd(acc, rest);
      return Some(acc);
    }

    method LoadOuters(n: nat) returns (r: Option<seq<OuterVar>>)
      modifies this
      ensures Gives(ReadPartOuters(old(rest), n), r, rest)
    {
      hide ReadOuter, CheckTag;
      var tagged := ExpectTag(PART);
      if !tagged { return None; }
      ghost var s := rest;
      var acc: seq<OuterVar> := [];
      PrependNone(ReadOuters(s, n));
      for i := 0 to n
        invariant |acc| == i && ReadOuters(s, n) == Prepend(acc, ReadOuters(rest, n - i))
      {
        var v := OuterEntry();
        if v.None? { return None; }
        PrependMore(acc, v.value, ReadOuters(rest, n - i - 1));
        acc := acc + [v.value];
      }
      PrependEnd(acc, rest);
      return Some(acc);
    }

    method LoadLocals(n: nat) returns (r: Option<seq<LocalInfo>>)
      modifies this
      ensures Gives(ReadPartLocals(old(rest), n), r, rest)
    {
      hide ReadLocal, CheckTag;
      var tagged := ExpectTag(PART);
      if !tagged { return None; }
      ghost var s := rest;
      var acc: seq<LocalInfo> := [];
      PrependNone(ReadLocals(s, n));
      for i := 0 to n
        invariant |acc| == i && ReadLocals(s, n) == Prepend(acc, ReadLocals(rest, n - i))
      {
        var v := LocalEntry();
        if v.None? { return None; }
        PrependMore(acc, v.value, ReadLocals(rest, n - i - 1));
        acc := acc + [v.value];
      }
      PrependEnd(acc, rest);
      return Some(acc);
    }

    method LoadBlock(n: nat) returns (r: Option<Bytes>)
      modifies this
      ensures Gives(ReadPartBlock(old(rest), n), r, rest)
    {
      hide CheckTag;
      var tagged := ExpectTag(PART);
      if !tagged { return None; }
      r := SafeRead(n);
    }

    method Head() returns (r: Option<(Value, Value, seq<nat>)>)
      modifies this
      ensures Gives(LoadHead(old(rest)), r, rest)
    {
      hide CheckTag, ReadObject, ReadWords;
      var tagged := ExpectTag(PART);
      if !tagged { return None; }
      var source := Object();
      if source.None? { return None; }
      var name := Object();
      if name.None? { return None; }
      tagged := ExpectTag(PART);
      if !tagged { return None; }
      var ns := Words(8);
      if ns.None? { return None; }
      return Some((source.value, name.value, ns.value));
    }

    method ReadLists(ns: seq<nat>) returns (r: Option<Lists>)
      requires |ns| == 8
      modifies this
      ensures Gives(LoadLists(old(rest), ns), r, rest)
    {
      hide ReadPartValues, ReadPartOuters, ReadPartLocals;
      var literals := LoadValues(ns[0]);
      if literals.None? { return None; }
      var params := LoadValues(ns[1]);
      if params.None? { return None; }
      var outers := LoadOuters(ns[2]);
      if outers.None? { return None; }
      var locals := LoadLocals(ns[3]);
      if locals.None? { return None; }
      return Some(Lists(literals.value, params.value, outers.value, locals.value));
    }

    method ReadBlocks(ns: seq<nat>) returns (r: Option<Blocks>)
      requires |ns| == 8
      modifies this
      ensures Gives(LoadBlocks(old(rest), ns), r, rest)
    {
      hide ReadPartBlock;
      var lines := LoadBlock(LINESIZE * ns[4]);
      if lines.None? { return None; }
      var defaults := LoadBlock(WORD * ns[5]);
      if defaults.None? { return None; }
      var code := LoadBlock(INSTRSIZE * ns[6]);
      if code.None? { return None; }
      return Some(Blocks(lines.value, defaults.value, code.value));
    }

    method Tail() returns (r: Option<(nat, Byte, nat)>)
      modifies this
      ensures Gives(LoadTail(old(rest)), r, rest)
    {
      hide ReadWord;
      var size := Word(WORD);
      if size.None? { return None; }
      var g := SafeRead(1);
      if g.None? { return None; }
      var v := Word(WORD);
      if v.None? { return None; }
      return Some((size.value, g.value[0], v.value));
    }

    /** Reads a function and its inner functions. */
    method LoadProto() returns (r: Option<Proto>)
      modifies this
      ensures Gives(Load(old(rest)), r, rest)
      decreases |rest|, 0
    {
      hide LoadHead, LoadLists, LoadBlocks, LoadTail, CheckTag, LoadAll;
      var head := Head();
      if head.None? { return None; }
      var lists := ReadLists(head.value.2);
      if lists.None? { return None; }
      var blocks := ReadBlocks(head.value.2);
      if blocks.None? { return None; }
      var tagged := ExpectTag(PART);
      if !tagged { return None; }
      var functions := LoadProtos(head.value.2[7]);
      if functions.None? { return None; }
      var tail := Tail();
      if tail.None? { return None; }
      return Some(Proto(head.value.0, head.value.1, lists.value.literals, lists.value.params, lists.value.outers, lists.value.locals,
                        blocks.value.lines, blocks.value.defaults, blocks.value.code, functions.value,
                        tail.value.0, tail.value.1, tail.value.2));
    }

    method LoadProtos(n: nat) returns (r: Option<seq<Proto>>)
      modifies this
      ensures Gives(LoadAll(old(rest), n), r, rest)
      decreases |rest|, 1
    {
      hide Load;
      ghost var s := rest;
      var acc: seq<Proto> := [];
      PrependNone(LoadAll(s, n));
      for i := 0 to n
        invariant |acc| == i && |rest| <= |s| && LoadAll(s, n) == Prepend(acc, LoadAll(rest, n - i))
      {
        var v := LoadProto();
        if v.None? { return None; }
        PrependMore(acc, v.value, LoadAll(rest, n - i - 1));
        acc := acc + [v.value];
      }
      PrependEnd(acc, rest);
      return Some(acc);
    }
  }

  /** What one stream object writes the other reads back. */
  method SaveThenLoad(p: Proto, junk: nat -> Bytes, rest: Bytes) returns (r: Option<Proto>, left: Bytes)
    requires Savable(p) && Padding(junk)
    ensures r == Some(p) && left == rest
  {
    hide Save, Load, Savable, Serial;
    var w := new Writer;
    w.out := [];
    var ok := w.SaveProto(p, junk);
    SavableIsSerial(p);
    var q := new Reader;
    q.rest := w.out + rest;
    assert [] + Save(p, junk) == Save(p, junk);
    ReadsProto(q.rest, p, junk);
    r := q.LoadProto();
    left := q.rest;
  }

  lemma {:induction false} SavableIsSerial(p: Proto)
    requires Savable(p)
    ensures Serial(p)
    decreases p
  {
    forall i | 0 <= i < |p.functions| ensures Serial(p.functions[i]) { SavableIsSerial(p.functions[i]); }
  }
}
