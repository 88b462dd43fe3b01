/** The closure stream byte by byte, apart from the code that writes and reads it: type tags from
    the type's number and its flags, little-endian words, and the order of the fields. */
module Format {
  import opened Common
  import opened SaveLoad

  // ------------------------------------------------------------------- numbers

  lemma LimitPositive(i: nat)
    ensures Limit(i) >= 1
  {
  }

  /** Byte i of a number, counted from the low end. */
  function ByteOf(n: nat, i: nat): Byte {
    LimitPositive(i);
    (n / Limit(i)) % 256
  }

  function Little(n: nat, k: nat): (r: Bytes)
    ensures |r| == k
  {
    seq(k, i requires 0 <= i < k => ByteOf(n, i))
  }

  lemma DivDiv(n: nat, i: nat)
    ensures ByteOf(n / 256, i) == ByteOf(n, i + 1)
  {
    LimitPositive(i);
    Quotients(n, Limit(i));
  }

  lemma Quotients(n: nat, b: nat)
    requires b >= 1
    ensures n / 256 / b == n / (256 * b)
  {
    var q := n / 256 / b;
    var r := n / 256 - q * b;
    assert n / 256 == q * b + r && 0 <= r < b;
    var s := n - 256 * (n / 256);
    assert n == 256 * (q * b + r) + s == q * (256 * b) + (256 * r + s);
    QuotientUnique(n, 256 * b, q, 256 * r + s);
  }

  /** What the writer puts out for a number. */
  lemma {:induction false} EncIs(n: nat, k: nat)
    ensures Enc(n, k) == Little(n, k)
    decreases k
  {
    if k > 0 {
      EncIs(n / 256, k - 1);
      forall i | 0 <= i < k ensures Enc(n, k)[i] == ByteOf(n, i) {
        if i > 0 { DivDiv(n, i - 1); }
      }
    }
  }

  /** What the reader takes a number to be: the one with these bytes. */
  lemma {:induction false} DecIs(s: Bytes)
    ensures Little(Dec(s), |s|) == s && Dec(s) < Limit(|s|)
    decreases |s|
  {
    if s != [] {
      DecIs(s[1..]);
      var n := Dec(s);
      forall i | 0 <= i < |s| ensures ByteOf(n, i) == s[i] {
        if i > 0 {
          DivDiv(n, i - 1);
          assert ByteOf(n / 256, i - 1) == Little(Dec(s[1..]), |s| - 1)[i - 1] == s[1..][i - 1];
        }
      }
    }
  }

  // -------------------------------------------------------------------- values

  /** The kinds of values a stream can hold. */
  datatype Kind = KNull | KInteger | KFloat | KBool | KString

  /** The number of a type, and the flags its tag carries: counted references, numbers, values that can be false. */
  function TypeNumber(k: Kind): Byte {
    match k
    case KNull => 1
    case KInteger => 2
    case KFloat => 4
    case KBool => 8
    case KString => 16
  }

  const COUNTED: Byte := 8
  const NUMERIC: Byte := 4
  const CANBEFALSE: Byte := 1

  function Flags(k: Kind): Byte {
    match k
    case KNull => CANBEFALSE
    case KInteger => NUMERIC + CANBEFALSE
    case KFloat => NUMERIC + CANBEFALSE
    case KBool => CANBEFALSE
    case KString => COUNTED
  }

  function TagOf(k: Kind): Bytes { [TypeNumber(k), 0, 0, Flags(k)] }

  function KindOf(o: Value): Option<Kind> {
    match o
    case Null => Some(KNull)
    case Integer(_) => Some(KInteger)
    case Bool(_) => Some(KBool)
    case Float(_) => Some(KFloat)
    case Str(_) => Some(KString)
    case Other(_) => None
  }

  /** What follows the tag: a word of eight bytes, four bytes of a float, or the length of a text and the text. */
  function Payload(o: Value): Bytes {
    match o
    case Integer(n) => Little(n, 8)
    case Bool(n) => Little(n, 8)
    case Float(raw) => raw
    case Str(text) => Little(|text|, 8) + text
    case _ => []
  }

  lemma FourBytes(n: nat, a: Byte, b: Byte, c: Byte, d: Byte)
    requires n == a + 256 * (b + 256 * (c + 256 * d))
    ensures Enc(n, 4) == [a, b, c, d]
  {
    var n1, n2, n3 := n / 256, n / 256 / 256, n / 256 / 256 / 256;
    assert n1 == b + 256 * (c + 256 * d) && n2 == c + 256 * d && n3 == d;
    EncStep(n, 4);
    EncStep(n1, 3);
    EncStep(n2, 2);
    EncStep(n3, 1);
  }

  lemma EncStep(n: nat, k: nat)
    requires k >= 1
    ensures Enc(n, k) == [n % 256] + Enc(n / 256, k - 1)
  {
  }

  lemma TagsAre()
    ensures Enc(OT_NULL, TAGSIZE) == TagOf(KNull) && Enc(OT_INTEGER, TAGSIZE) == TagOf(KInteger) && Enc(OT_BOOL, TAGSIZE) == TagOf(KBool)
    ensures Enc(OT_FLOAT, TAGSIZE) == TagOf(KFloat) && Enc(OT_STRING, TAGSIZE) == TagOf(KString)
  {
    hide Enc;
    FourBytes(OT_NULL, 1, 0, 0, 1);
    FourBytes(OT_INTEGER, 2, 0, 0, 5);
    FourBytes(OT_BOOL, 8, 0, 0, 1);
    FourBytes(OT_FLOAT, 4, 0, 0, 5);
    FourBytes(OT_STRING, 16, 0, 0, 8);
  }

  /** The bytes of a value; of one that cannot be written, the tag before the error. */
  function Spelled(o: Value): Bytes {
    if o.Other? then Little(o.tag, 4) else TagOf(KindOf(o).value) + Payload(o)
  }

  /** Every value is written as the tag of its kind and its payload. */
  lemma WrittenAs(o: Value)
    ensures Write(o) == Spelled(o)
  {
    hide Enc, Little;
    TagsAre();
    match o
    case Null => assert TagOf(KNull) + [] == TagOf(KNull);
    case Integer(n) => EncIs(n, WORD);
    case Bool(n) => EncIs(n, WORD);
    case Float(_) =>
    case Str(text) => EncIs(|text|, WORD);
    case Other(tag) => EncIs(tag, TAGSIZE);
  }

  lemma DecOfTag(s: Bytes, n: nat, tag: Bytes)
    requires |s| == 4 && Fits(n, TAGSIZE) && Enc(n, TAGSIZE) == tag
    ensures Dec(s) == n <==> s == tag
  {
    if Dec(s) == n {
      DecIs(s);
      EncIs(n, 4);
    } else if s == tag {
      DecEnc(n, TAGSIZE);
    }
  }

  // -------------------------------------------------------------------- fields

  /** A piece of a stream: given bytes, and behind them some that may be anything. */
  datatype Field = Field(bytes: Bytes, free: nat)

  /** What is left of a stream that starts with this field. */
  function Take(f: Field, s: Bytes): Option<Bytes> {
    if |s| >= |f.bytes| + f.free && s[..|f.bytes|] == f.bytes then Some(s[|f.bytes| + f.free..]) else None
  }

  function TakeAll(fs: seq<Field>, s: Bytes): Option<Bytes> {
    if fs == [] then Some(s) else
      var t := Take(fs[0], s);
      if t.None? then None else TakeAll(fs[1..], t.value)
  }

  lemma {:induction false} TakeJoin(fs: seq<Field>, gs: seq<Field>, s: Bytes)
    ensures TakeAll(fs + gs, s) == if TakeAll(fs, s).None? then None else TakeAll(gs, TakeAll(fs, s).value)
    decreases |fs|
  {
    hide Take;
    if fs == [] {
      assert fs + gs == gs;
    } else {
      assert (fs + gs)[1..] == fs[1..] + gs;
      if Take(fs[0], s).Some? { TakeJoin(fs[1..], gs, Take(fs[0], s).value); }
    }
  }

  lemma TakeOne(f: Field, s: Bytes)
    ensures TakeAll([f], s) == Take(f, s)
  {
  }

  function Word(n: nat): Field { Field(Little(n, 8), 0) }

  /** A number of four bytes in the space of eight. */
  function Half(n: nat): Field { Field(Little(n, 4), 4) }

  function Item(o: Value): Field { Field(Spelled(o), 0) }

  function Raw(b: Bytes): Field { Field(b, 0) }

  /** Four letters, the last one first. */
  function Mark(name: string): Field
    requires |name| == 4 && forall i :: 0 <= i < 4 ==> name[i] as int < 256
  {
    Field([name[3] as int, name[2] as int, name[1] as int, name[0] as int], 0)
  }

  lemma JoinSame(a: Bytes, b: Bytes, c: Bytes, d: Bytes)
    requires |a| == |c|
    ensures a + b == c + d <==> a == c && b == d
  {
    if a + b == c + d {
      assert a == (a + b)[..|a|] && c == (c + d)[..|a|];
      assert b == (a + b)[|a|..] && d == (c + d)[|a|..];
    }
  }

  lemma TakeSplit(a: Bytes, b: Bytes, s: Bytes)
    ensures Take(Raw(a + b), s) == TakeAll([Raw(a), Raw(b)], s)
  {
    var n, m := |a|, |b|;
    if |s| >= n {
      TakeOne(Raw(b), s[n..]);
      if |s| >= n + m {
        assert s[..n + m] == s[..n] + s[n..][..m];
        JoinSame(s[..n], s[n..][..m], a, b);
        assert s[n..][m..] == s[n + m..];
      }
    }
    assert [Raw(a), Raw(b)][1..] == [Raw(b)];
  }

  // ------------------------------------------------------- what the reader takes

  /** Reading a number succeeds with `n` exactly on the bytes of `n`. */
  lemma NumberReads(s: Bytes, k: nat, n: nat, r: Bytes)
    ensures ReadWord(s, k) == Ok(n, r) <==> Fits(n, k) && Take(Raw(Little(n, k)), s) == Some(r)
  {
    hide Enc, Dec, Little;
    if |s| >= k {
      DecIs(s[..k]);
      if Fits(n, k) {
        EncIs(n, k);
        DecEnc(n, k);
      }
    }
  }

  lemma BytesRead(s: Bytes, b: Bytes, r: Bytes)
    ensures Read(s, |b|) == Ok(b, r) <==> Take(Raw(b), s) == Some(r)
  {
  }

  /** The tag in front of a stream. */
  predicate Tagged(s: Bytes, k: Kind) { Take(Raw(TagOf(k)), s).Some? }

  lemma TagTaken(s: Bytes, n: nat, k: Kind)
    requires Fits(n, TAGSIZE) && Enc(n, TAGSIZE) == TagOf(k)
    ensures ReadWord(s, TAGSIZE).Ok? && ReadWord(s, TAGSIZE).value == n <==> Tagged(s, k)
    ensures Tagged(s, k) ==> ReadWord(s, TAGSIZE).rest == Take(Raw(TagOf(k)), s).value
  {
    if |s| >= 4 { DecOfTag(s[..4], n, TagOf(k)); }
  }

  lemma TagsTaken(s: Bytes)
    ensures ReadWord(s, TAGSIZE).Ok? ==> ReadWord(s, TAGSIZE).rest == s[4..]
    ensures ReadWord(s, TAGSIZE).Ok? && ReadWord(s, TAGSIZE).value == OT_NULL <==> Tagged(s, KNull)
    ensures ReadWord(s, TAGSIZE).Ok? && ReadWord(s, TAGSIZE).value == OT_INTEGER <==> Tagged(s, KInteger)
    ensures ReadWord(s, TAGSIZE).Ok? && ReadWord(s, TAGSIZE).value == OT_BOOL <==> Tagged(s, KBool)
    ensures ReadWord(s, TAGSIZE).Ok? && ReadWord(s, TAGSIZE).value == OT_FLOAT <==> Tagged(s, KFloat)
    ensures ReadWord(s, TAGSIZE).Ok? && ReadWord(s, TAGSIZE).value == OT_STRING <==> Tagged(s, KString)
  {
    hide Enc, Dec, Fits, Tagged;
    TagsAre();
    ObjectTagsFit();
    TagTaken(s, OT_NULL, KNull);
    TagTaken(s, OT_INTEGER, KInteger);
    TagTaken(s, OT_BOOL, KBool);
    TagTaken(s, OT_FLOAT, KFloat);
    TagTaken(s, OT_STRING, KString);
  }

  /** A value's field is its tag, and behind it the payload. */
  lemma ItemTaken(s: Bytes, o: Value)
    requires !o.Other?
    ensures Take(Item(o), s) == if Tagged(s, KindOf(o).value) then Take(Raw(Payload(o)), s[4..]) else None
  {
    hide Little;
    var tag := TagOf(KindOf(o).value);
    TakeSplit(tag, Payload(o), s);
    assert Item(o) == Raw(tag + Payload(o));
    if Tagged(s, KindOf(o).value) { TakeOne(Raw(Payload(o)), s[4..]); }
  }

  /** Reading gives `o` exactly on streams that start with the tag of its kind and its payload. */
  lemma ObjectReads(s: Bytes, o: Value, r: Bytes)
    ensures ReadObject(s) == Ok(o, r) <==> Writable(o) && Take(Item(o), s) == Some(r)
  {
    hide Little, ReadWord, Read, Take, Fits, Tagged, Spelled;
    TagsTaken(s);
    if !o.Other? { ItemTaken(s, o); }
    var s1 := if |s| >= 4 then s[4..] else [];
    match o
    case Null => BytesRead(s1, [], r); NothingTaken(s1);
    case Integer(n) => NumberReads(s1, WORD, n, r);
    case Bool(n) => NumberReads(s1, WORD, n, r);
    case Float(raw) => FloatReads(s1, raw, r);
    case Str(text) => TextReads(s1, text, r);
    case Other(_) =>
  }

  lemma NothingTaken(s: Bytes)
    ensures Take(Raw([]), s) == Some(s)
  {
  }

  lemma FloatReads(s: Bytes, raw: Bytes, r: Bytes)
    ensures Read(s, FLOATSIZE) == Ok(raw, r) <==> |raw| == FLOATSIZE && Take(Raw(raw), s) == Some(r)
  {
  }

  predicate ReadsText(s: Bytes, text: Bytes, r: Bytes) {
    var n := ReadWord(s, WORD);
    n.Ok? && Read(n.rest, n.value) == Ok(text, r)
  }

  lemma TextReads(s: Bytes, text: Bytes, r: Bytes)
    ensures ReadsText(s, text, r) <==> Fits(|text|, WORD) && Take(Raw(Little(|text|, 8) + text), s) == Some(r)
  {
    hide Little, ReadWord, Read, Take, Fits;
    var head := Raw(Little(|text|, 8));
    TakeSplit(head.bytes, text, s);
    var n, t := ReadWord(s, WORD), Take(head, s);
    assert [head, Raw(text)][1..] == [Raw(text)];
    if n.Ok? {
      NumberReads(s, WORD, n.value, n.rest);
      BytesRead(n.rest, text, r);
      TakeOne(Raw(text), n.rest);
      ReadSize(n.rest, n.value);
    }
    if t.Some? {
      NumberReads(s, WORD, |text|, t.value);
      TakeOne(Raw(text), t.value);
    }
  }

  lemma ReadSize(s: Bytes, n: nat)
    ensures Read(s, n).Ok? ==> |Read(s, n).value| == n
  {
  }

  /** Enough bytes for a value of this kind. */
  predicate Enough(s: Bytes, k: Kind) {
    match k
    case KNull => |s| >= 4
    case KFloat => |s| >= 8
    case KInteger => |s| >= 12
    case KBool => |s| >= 12
    case KString => |s| >= 12 && |s| >= 12 + Dec(s[4..12])
  }

  /** A value of kind k comes out exactly of a stream that starts with k's tag and is long enough. */
  lemma KindReads(s: Bytes, k: Kind)
    ensures ReadObject(s).Ok? && KindOf(ReadObject(s).value) == Some(k) <==> Tagged(s, k) && Enough(s, k)
  {
    hide Dec, Tagged;
    TagsTaken(s);
    TagsDiffer(s);
    if |s| >= 12 { assert s[4..][..8] == s[4..12] && s[4..][8..] == s[12..]; }
  }

  lemma TagsDiffer(s: Bytes)
    ensures forall k, k' :: Tagged(s, k) && Tagged(s, k') ==> k == k'
  {
    forall k, k' | Tagged(s, k) && Tagged(s, k') ensures k == k' {
      assert s[..4] == TagOf(k) && s[..4] == TagOf(k');
      assert s[0] == TypeNumber(k) && s[0] == TypeNumber(k');
    }
  }

  // -------------------------------------------------------------------- layout

  function Items(vs: seq<Value>): seq<Field> { seq(|vs|, i requires 0 <= i < |vs| => Item(vs[i])) }

  function Words(ns: seq<nat>): seq<Field> { seq(|ns|, i requires 0 <= i < |ns| => Word(ns[i])) }

  /** A captured variable: its kind, where it comes from, its name. */
  function OuterFields(o: OuterVar): seq<Field> { [Half(o.kind)] + ([Item(o.src)] + [Item(o.name)]) }

  function OutersFields(os: seq<OuterVar>): seq<Field> {
    if os == [] then [] else OuterFields(os[0]) + OutersFields(os[1..])
  }

  /** A local variable: its name, its register, and the instructions it lives from and to. */
  function LocalFields(l: LocalInfo): seq<Field> { [Item(l.name)] + Words([l.pos, l.start, l.end]) }

  function LocalsFields(ls: seq<LocalInfo>): seq<Field> {
    if ls == [] then [] else LocalFields(ls[0]) + LocalsFields(ls[1..])
  }

  function Part(fs: seq<Field>): seq<Field> { [Mark("PART")] + fs }

  function HeadFields(source: Value, name: Value, counts: seq<nat>): seq<Field> {
    Part([Item(source)] + ([Item(name)] + Part(Words(counts))))
  }

  function ListFields(l: Lists): seq<Field> {
    Part(Items(l.literals)) + (Part(Items(l.params)) + (Part(OutersFields(l.outers)) + Part(LocalsFields(l.locals))))
  }

  function BlockFields(b: Blocks): seq<Field> {
    Part([Raw(b.lines)]) + (Part([Raw(b.defaults)]) + Part([Raw(b.code)]))
  }

  function TailFields(stackSize: nat, generator: Byte, varparams: nat): seq<Field> {
    [Word(stackSize)] + ([Raw([generator])] + [Word(varparams)])
  }

  /** A function: names, eight counts, four lists, three blocks, the functions inside it, and its frame. */
  function Layout(p: Proto): seq<Field>
    decreases p, 1
  {
    var counts := [|p.literals|, |p.params|, |p.outers|, |p.locals|, |p.lines| / 16, |p.defaults| / 8, |p.code| / 8, |p.functions|];
    HeadFields(p.source, p.name, counts) + BodyFields(p)
  }

  function BodyFields(p: Proto): seq<Field>
    decreases p, 0
  {
    ListFields(Lists(p.literals, p.params, p.outers, p.locals))
      + (BlockFields(Blocks(p.lines, p.defaults, p.code))
      + (Part(Layouts(p.functions)) + TailFields(p.stackSize, p.generator, p.varparams)))
  }

  function Layouts(ps: seq<Proto>): seq<Field>
    decreases ps
  {
    if ps == [] then [] else Layout(ps[0]) + Layouts(ps[1..])
  }

  /** A closure stream: its mark, the sizes of a character, an integer and a float, the function, the closing mark. */
  function ClosureLayout(p: Proto): seq<Field> {
    [Mark("SQIR")] + ([Raw([1, 0, 0, 0])] + ([Raw([8, 0, 0, 0])] + ([Raw([4, 0, 0, 0])] + (Layout(p) + [Mark("TAIL")]))))
  }

  // ----------------------------------------------------- what the reader accepts

  lemma TakeCons(f: Field, fs: seq<Field>, s: Bytes)
    ensures TakeAll([f] + fs, s) == if Take(f, s).None? then None else TakeAll(fs, Take(f, s).value)
  {
    assert ([f] + fs)[1..] == fs;
  }

  lemma MarkTaken(s: Bytes, n: nat, mark: Bytes)
    requires Fits(n, TAGSIZE) && Enc(n, TAGSIZE) == mark
    ensures CheckTag(s, n).Ok? <==> Take(Raw(mark), s).Some?
    ensures CheckTag(s, n).Ok? ==> CheckTag(s, n).rest == Take(Raw(mark), s).value
  {
    if |s| >= 4 { DecOfTag(s[..4], n, mark); }
  }

  lemma PartTaken(s: Bytes, fs: seq<Field>)
    ensures TakeAll(Part(fs), s) == if CheckTag(s, PART).Fail? then None else TakeAll(fs, CheckTag(s, PART).rest)
  {
    hide Enc, Dec, Fits, TakeAll, CheckTag;
    ObjectTagsFit();
    FourBytes(PART, 'T' as int, 'R' as int, 'A' as int, 'P' as int);
    MarkTaken(s, PART, Mark("PART").bytes);
    TakeCons(Mark("PART"), fs, s);
  }

  lemma {:induction false} ValuesRead(s: Bytes, vs: seq<Value>, r: Bytes)
    ensures ReadAll(s, |vs|) == Ok(vs, r)
      <==> (forall i :: 0 <= i < |vs| ==> Writable(vs[i])) && TakeAll(Items(vs), s) == Some(r)
    decreases |vs|
  {
    hide Writable, ReadObject, Take, Item;
    if vs != [] {
      assert Items(vs)[1..] == Items(vs[1..]);
      assert vs == [vs[0]] + vs[1..];
      var o, t := ReadObject(s), Take(Item(vs[0]), s);
      if o.Ok? {
        ObjectReads(s, o.value, o.rest);
        ValuesRead(o.rest, vs[1..], r);
      }
      if t.Some? {
        ObjectReads(s, vs[0], t.value);
        ValuesRead(t.value, vs[1..], r);
      }
    }
  }

  lemma {:induction false} WordsRead(s: Bytes, ns: seq<nat>, r: Bytes)
    ensures ReadWords(s, |ns|) == Ok(ns, r)
      <==> (forall i :: 0 <= i < |ns| ==> Fits(ns[i], WORD)) && TakeAll(Words(ns), s) == Some(r)
    decreases |ns|
  {
    hide Fits, ReadWord, Take, Little;
    if ns != [] {
      assert Words(ns)[1..] == Words(ns[1..]);
      assert ns == [ns[0]] + ns[1..];
      var o, t := ReadWord(s, WORD), Take(Word(ns[0]), s);
      if o.Ok? {
        NumberReads(s, WORD, o.value, o.rest);
        WordsRead(o.rest, ns[1..], r);
      }
      if t.Some? {
        NumberReads(s, WORD, ns[0], t.value);
        WordsRead(t.value, ns[1..], r);
      }
    }
  }

  /** The low half of a word is the number in its first four bytes. */
  lemma LowBytes(s: Bytes)
    requires |s| == 8
    ensures Dec(s) % 0x1_0000_0000 == Dec(s[..4]) && Fits(Dec(s[..4]), 4)
  {
    hide Dec, Little;
    DecIs(s[..4]);
    TagsFit();
    assert s[..4] + s[4..] == s;
    DecJoin(s[..4], s[4..]);
    LowHalf(Dec(s[..4]), Dec(s[4..]));
  }

  predicate ReadsHalf(s: Bytes, n: nat, r: Bytes) {
    var w := ReadWord(s, WORD);
    w.Ok? && w.value % 0x1_0000_0000 == n && w.rest == r
  }

  lemma HalfReads(s: Bytes, n: nat, r: Bytes)
    ensures ReadsHalf(s, n, r) <==> Fits(n, TAGSIZE) && Take(Half(n), s) == Some(r)
  {
    hide Little, Dec, Fits;
    if |s| >= 8 {
      LowBytes(s[..8]);
      assert s[..8][..4] == s[..4];
      NumberReads(s, 4, n, s[4..]);
    }
  }

  lemma ThreeTaken(a: Field, b: Field, c: Field, s: Bytes)
    ensures TakeAll([a] + ([b] + [c]), s) ==
      var t := Take(a, s);
      if t.None? then None else
        var u := Take(b, t.value);
        if u.None? then None else Take(c, u.value)
  {
    hide Take, TakeAll;
    TakeCons(a, [b] + [c], s);
    if Take(a, s).Some? {
      var t := Take(a, s).value;
      TakeCons(b, [c], t);
      if Take(b, t).Some? { TakeOne(c, Take(b, t).value); }
    }
  }

  lemma OuterReads(s: Bytes, o: OuterVar, r: Bytes)
    ensures ReadOuter(s) == Ok(o, r) <==> OuterWritable(o) && TakeAll(OuterFields(o), s) == Some(r)
  {
    hide Writable, ReadObject, Take, TakeAll, Item, Half, ReadWord, Fits;
    ThreeTaken(Half(o.kind), Item(o.src), Item(o.name), s);
    var w, t := ReadWord(s, WORD), Take(Half(o.kind), s);
    if w.Ok? {
      HalfReads(s, o.kind, w.rest);
      PairReads(w.rest, o.src, o.name, r);
    }
    if t.Some? {
      HalfReads(s, o.kind, t.value);
      PairReads(t.value, o.src, o.name, r);
    }
  }

  predicate ReadsPair(s: Bytes, a: Value, b: Value, r: Bytes) {
    var o := ReadObject(s);
    o.Ok? && o.value == a && ReadObject(o.rest) == Ok(b, r)
  }

  lemma PairReads(s: Bytes, a: Value, b: Value, r: Bytes)
    ensures ReadsPair(s, a, b, r)
      <==> Writable(a) && Writable(b) && Take(Item(a), s).Some? && Take(Item(b), Take(Item(a), s).value) == Some(r)
  {
    hide Writable, ReadObject, Take, Item;
    var o, t := ReadObject(s), Take(Item(a), s);
    if o.Ok? {
      ObjectReads(s, a, o.rest);
      ObjectReads(o.rest, b, r);
    }
    if t.Some? {
      ObjectReads(s, a, t.value);
      ObjectReads(t.value, b, r);
    }
  }

  lemma {:induction false} OutersRead(s: Bytes, os: seq<OuterVar>, r: Bytes)
    ensures ReadOuters(s, |os|) == Ok(os, r)
      <==> (forall i :: 0 <= i < |os| ==> OuterWritable(os[i])) && TakeAll(OutersFields(os), s) == Some(r)
    decreases |os|
  {
    hide OuterWritable, ReadOuter, TakeAll, OuterFields;
    if os != [] {
      TakeJoin(OuterFields(os[0]), OutersFields(os[1..]), s);
      assert os == [os[0]] + os[1..];
      var o, t := ReadOuter(s), TakeAll(OuterFields(os[0]), s);
      if o.Ok? {
        OuterReads(s, o.value, o.rest);
        OutersRead(o.rest, os[1..], r);
      }
      if t.Some? {
        OuterReads(s, os[0], t.value);
        OutersRead(t.value, os[1..], r);
      }
    } else {
      TakeNone(s);
    }
  }

  lemma TakeNone(s: Bytes)
    ensures TakeAll([], s) == Some(s)
  {
  }

  lemma LocalReads(s: Bytes, l: LocalInfo, r: Bytes)
    ensures ReadLocal(s) == Ok(l, r) <==> LocalWritable(l) && TakeAll(LocalFields(l), s) == Some(r)
  {
    hide Writable, ReadObject, Take, TakeAll, Item, Words, Fits, ReadWords;
    var ns := [l.pos, l.start, l.end];
    TakeCons(Item(l.name), Words(ns), s);
    var o, t := ReadObject(s), Take(Item(l.name), s);
    if o.Ok? {
      ObjectReads(s, l.name, o.rest);
      WordsRead(o.rest, ns, r);
      var w := ReadWords(o.rest, 3);
      if w.Ok? { assert w.value == [w.value[0], w.value[1], w.value[2]]; }
    }
    if t.Some? {
      ObjectReads(s, l.name, t.value);
      WordsRead(t.value, ns, r);
    }
  }

  lemma {:induction false} LocalsRead(s: Bytes, ls: seq<LocalInfo>, r: Bytes)
    ensures ReadLocals(s, |ls|) == Ok(ls, r)
      <==> (forall i :: 0 <= i < |ls| ==> LocalWritable(ls[i])) && TakeAll(LocalsFields(ls), s) == Some(r)
    decreases |ls|
  {
    hide LocalWritable, ReadLocal, TakeAll, LocalFields;
    if ls != [] {
      TakeJoin(LocalFields(ls[0]), LocalsFields(ls[1..]), s);
      assert ls == [ls[0]] + ls[1..];
      var o, t := ReadLocal(s), TakeAll(LocalFields(ls[0]), s);
      if o.Ok? {
        LocalReads(s, o.value, o.rest);
        LocalsRead(o.rest, ls[1..], r);
      }
      if t.Some? {
        LocalReads(s, ls[0], t.value);
        LocalsRead(t.value, ls[1..], r);
      }
    } else {
      TakeNone(s);
    }
  }

  // ------------------------------------------------------------------ sections

  lemma PartValuesRead(s: Bytes, vs: seq<Value>, r: Bytes)
    ensures ReadPartValues(s, |vs|) == Ok(vs, r)
      <==> (forall i :: 0 <= i < |vs| ==> Writable(vs[i])) && TakeAll(Part(Items(vs)), s) == Some(r)
  {
    hide Writable, TakeAll, Items, ReadAll, CheckTag, Part;
    PartTaken(s, Items(vs));
    if CheckTag(s, PART).Ok? { ValuesRead(CheckTag(s, PART).rest, vs, r); }
  }

  lemma PartOutersRead(s: Bytes, os: seq<OuterVar>, r: Bytes)
    ensures ReadPartOuters(s, |os|) == Ok(os, r)
      <==> (forall i :: 0 <= i < |os| ==> OuterWritable(os[i])) && TakeAll(Part(OutersFields(os)), s) == Some(r)
  {
    hide OuterWritable, TakeAll, OutersFields, ReadOuters, CheckTag, Part;
    PartTaken(s, OutersFields(os));
    if CheckTag(s, PART).Ok? { OutersRead(CheckTag(s, PART).rest, os, r); }
  }

  lemma PartLocalsRead(s: Bytes, ls: seq<LocalInfo>, r: Bytes)
    ensures ReadPartLocals(s, |ls|) == Ok(ls, r)
      <==> (forall i :: 0 <= i < |ls| ==> LocalWritable(ls[i])) && TakeAll(Part(LocalsFields(ls)), s) == Some(r)
  {
    hide LocalWritable, TakeAll, LocalsFields, ReadLocals, CheckTag, Part;
    PartTaken(s, LocalsFields(ls));
    if CheckTag(s, PART).Ok? { LocalsRead(CheckTag(s, PART).rest, ls, r); }
  }

  lemma PartBlockReads(s: Bytes, b: Bytes, r: Bytes)
    ensures ReadPartBlock(s, |b|) == Ok(b, r) <==> TakeAll(Part([Raw(b)]), s) == Some(r)
  {
    hide TakeAll, Read, CheckTag, Part, Take;
    PartTaken(s, [Raw(b)]);
    if CheckTag(s, PART).Ok? {
      BytesRead(CheckTag(s, PART).rest, b, r);
      TakeOne(Raw(b), CheckTag(s, PART).rest);
    }
  }

  /** A reader gives `x` exactly where `x` can be written and its fields stand, and both leave the same. */
  ghost predicate Alike<T>(p: Parse<T>, x: T, writable: bool, t: Option<Bytes>) {
    forall r :: p == Ok(x, r) <==> writable && t == Some(r)
  }

  ghost predicate AllWritable(vs: seq<Value>) { forall i :: 0 <= i < |vs| ==> Writable(vs[i]) }
  ghost predicate AllOuters(os: seq<OuterVar>) { forall i :: 0 <= i < |os| ==> OuterWritable(os[i]) }
  ghost predicate AllLocals(ls: seq<LocalInfo>) { forall i :: 0 <= i < |ls| ==> LocalWritable(ls[i]) }
  ghost predicate AllFit(ns: seq<nat>) { forall i :: 0 <= i < |ns| ==> Fits(ns[i], WORD) }
  ghost predicate AllSavable(ps: seq<Proto>) { forall i :: 0 <= i < |ps| ==> Savable(ps[i]) }

  lemma ValuesAlike(s: Bytes, vs: seq<Value>)
    ensures Alike(ReadPartValues(s, |vs|), vs, AllWritable(vs), TakeAll(Part(Items(vs)), s))
  {
    hide Writable, TakeAll, Items, ReadPartValues, Part;
    forall r ensures ReadPartValues(s, |vs|) == Ok(vs, r) <==> AllWritable(vs) && TakeAll(Part(Items(vs)), s) == Some(r) {
      PartValuesRead(s, vs, r);
    }
  }

  lemma OutersAlike(s: Bytes, os: seq<OuterVar>)
    ensures Alike(ReadPartOuters(s, |os|), os, AllOuters(os), TakeAll(Part(OutersFields(os)), s))
  {
    hide OuterWritable, TakeAll, OutersFields, ReadPartOuters, Part;
    forall r ensures ReadPartOuters(s, |os|) == Ok(os, r) <==> AllOuters(os) && TakeAll(Part(OutersFields(os)), s) == Some(r) {
      PartOutersRead(s, os, r);
    }
  }

  lemma LocalsAlike(s: Bytes, ls: seq<LocalInfo>)
    ensures Alike(ReadPartLocals(s, |ls|), ls, AllLocals(ls), TakeAll(Part(LocalsFields(ls)), s))
  {
    hide LocalWritable, TakeAll, LocalsFields, ReadPartLocals, Part;
    forall r ensures ReadPartLocals(s, |ls|) == Ok(ls, r) <==> AllLocals(ls) && TakeAll(Part(LocalsFields(ls)), s) == Some(r) {
      PartLocalsRead(s, ls, r);
    }
  }

  lemma BlockAlike(s: Bytes, b: Bytes)
    ensures Alike(ReadPartBlock(s, |b|), b, true, TakeAll(Part([Raw(b)]), s))
  {
    hide TakeAll, ReadPartBlock, Part;
    forall r ensures ReadPartBlock(s, |b|) == Ok(b, r) <==> TakeAll(Part([Raw(b)]), s) == Some(r) { PartBlockReads(s, b, r); }
  }

  lemma UseAlike<T>(p: Parse<T>, x: T, writable: bool, t: Option<Bytes>)
    requires Alike(p, x, writable, t)
    ensures p.Ok? && p.value == x <==> writable && t.Some?
    ensures p.Ok? && p.value == x ==> p.rest == t.value
  {
    if p.Ok? && p.value == x { assert p == Ok(x, p.rest); }
    if writable && t.Some? { assert t == Some(t.value); }
  }

  ghost predicate ListsWritable(l: Lists) {
    AllWritable(l.literals) && AllWritable(l.params) && AllOuters(l.outers) && AllLocals(l.locals)
  }

  lemma ListsRead(s: Bytes, l: Lists, ns: seq<nat>, r: Bytes)
    requires |ns| == 8
    requires |l.literals| == ns[0] && |l.params| == ns[1] && |l.outers| == ns[2] && |l.locals| == ns[3]
    ensures LoadLists(s, ns) == Ok(l, r)
      <==> ListsWritable(l) && TakeAll(ListFields(l), s) == Some(r)
  {
    hide ReadPartValues, ReadPartOuters, ReadPartLocals, TakeAll, Part, Items, OutersFields, LocalsFields;
    hide Alike, AllWritable, AllOuters, AllLocals;
    var a, b, c, d := Part(Items(l.literals)), Part(Items(l.params)), Part(OutersFields(l.outers)), Part(LocalsFields(l.locals));
    TakeJoin(a, b + (c + d), s);
    ValuesAlike(s, l.literals);
    var p := ReadPartValues(s, ns[0]);
    UseAlike(p, l.literals, AllWritable(l.literals), TakeAll(a, s));
    if p.Ok? && p.value == l.literals {
      TakeJoin(b, c + d, p.rest);
      ValuesAlike(p.rest, l.params);
      var q := ReadPartValues(p.rest, ns[1]);
      UseAlike(q, l.params, AllWritable(l.params), TakeAll(b, p.rest));
      if q.Ok? && q.value == l.params {
        TakeJoin(c, d, q.rest);
        OutersAlike(q.rest, l.outers);
        var o := ReadPartOuters(q.rest, ns[2]);
        UseAlike(o, l.outers, AllOuters(l.outers), TakeAll(c, q.rest));
        if o.Ok? && o.value == l.outers {
          LocalsAlike(o.rest, l.locals);
          UseAlike(ReadPartLocals(o.rest, ns[3]), l.locals, AllLocals(l.locals), TakeAll(d, o.rest));
        }
      }
    }
  }

  lemma BlocksRead(s: Bytes, b: Blocks, ns: seq<nat>, r: Bytes)
    requires |ns| == 8 && |b.lines| == LINESIZE * ns[4] && |b.defaults| == WORD * ns[5] && |b.code| == INSTRSIZE * ns[6]
    ensures LoadBlocks(s, ns) == Ok(b, r) <==> TakeAll(BlockFields(b), s) == Some(r)
  {
    hide ReadPartBlock, TakeAll, Part, Alike;
    var x, y, z := Part([Raw(b.lines)]), Part([Raw(b.defaults)]), Part([Raw(b.code)]);
    TakeJoin(x, y + z, s);
    BlockAlike(s, b.lines);
    var p := ReadPartBlock(s, LINESIZE * ns[4]);
    UseAlike(p, b.lines, true, TakeAll(x, s));
    if p.Ok? && p.value == b.lines {
      TakeJoin(y, z, p.rest);
      BlockAlike(p.rest, b.defaults);
      var q := ReadPartBlock(p.rest, WORD * ns[5]);
      UseAlike(q, b.defaults, true, TakeAll(y, p.rest));
      if q.Ok? && q.value == b.defaults {
        BlockAlike(q.rest, b.code);
        UseAlike(ReadPartBlock(q.rest, INSTRSIZE * ns[6]), b.code, true, TakeAll(z, q.rest));
      }
    }
  }

  lemma WordAlike(s: Bytes, n: nat)
    ensures Alike(ReadWord(s, WORD), n, Fits(n, WORD), Take(Word(n), s))
  {
    hide ReadWord, Fits, Little;
    forall r ensures ReadWord(s, WORD) == Ok(n, r) <==> Fits(n, WORD) && Take(Word(n), s) == Some(r) { NumberReads(s, WORD, n, r); }
  }

  lemma TailReads(s: Bytes, stackSize: nat, generator: Byte, varparams: nat, r: Bytes)
    ensures LoadTail(s) == Ok((stackSize, generator, varparams), r)
      <==> Fits(stackSize, WORD) && Fits(varparams, WORD) && TakeAll(TailFields(stackSize, generator, varparams), s) == Some(r)
  {
    hide ReadWord, Read, Fits, Little, Take, TakeAll, Alike;
    ThreeTaken(Word(stackSize), Raw([generator]), Word(varparams), s);
    var p := ReadWord(s, WORD);
    WordAlike(s, stackSize);
    UseAlike(p, stackSize, Fits(stackSize, WORD), Take(Word(stackSize), s));
    if p.Ok? && p.value == stackSize {
      var g, t := Read(p.rest, 1), Take(Raw([generator]), p.rest);
      if g.Ok? {
        BytesRead(p.rest, [generator], g.rest);
        ReadSize(p.rest, 1);
      }
      if t.Some? { BytesRead(p.rest, [generator], t.value); }
      if g.Ok? && g.value == [generator] {
        WordAlike(g.rest, varparams);
        UseAlike(ReadWord(g.rest, WORD), varparams, Fits(varparams, WORD), Take(Word(varparams), g.rest));
      }
    }
  }

  lemma ObjectAlike(s: Bytes, o: Value)
    ensures Alike(ReadObject(s), o, Writable(o), Take(Item(o), s))
  {
    hide ReadObject, Writable, Item, Take;
    forall r ensures ReadObject(s) == Ok(o, r) <==> Writable(o) && Take(Item(o), s) == Some(r) { ObjectReads(s, o, r); }
  }

  lemma WordsAlike(s: Bytes, ns: seq<nat>)
    ensures Alike(ReadWords(s, |ns|), ns, AllFit(ns), TakeAll(Words(ns), s))
  {
    hide ReadWords, Fits, TakeAll, Words;
    forall r ensures ReadWords(s, |ns|) == Ok(ns, r) <==> AllFit(ns) && TakeAll(Words(ns), s) == Some(r) { WordsRead(s, ns, r); }
  }

  lemma HeadReads(s: Bytes, source: Value, name: Value, ns: seq<nat>, r: Bytes)
    requires |ns| == 8
    ensures LoadHead(s) == Ok((source, name, ns), r)
      <==> Writable(source) && Writable(name) && AllFit(ns) && TakeAll(HeadFields(source, name, ns), s) == Some(r)
  {
    hide CheckTag, ReadObject, ReadWords, Writable, AllFit, Take, TakeAll, Item, Words, Part, Alike;
    var fs := Part(Words(ns));
    PartTaken(s, [Item(source)] + ([Item(name)] + fs));
    if CheckTag(s, PART).Ok? {
      var s1 := CheckTag(s, PART).rest;
      TakeCons(Item(source), [Item(name)] + fs, s1);
      ObjectAlike(s1, source);
      var p := ReadObject(s1);
      UseAlike(p, source, Writable(source), Take(Item(source), s1));
      if p.Ok? && p.value == source {
        TakeCons(Item(name), fs, p.rest);
        ObjectAlike(p.rest, name);
        var q := ReadObject(p.rest);
        UseAlike(q, name, Writable(name), Take(Item(name), p.rest));
        if q.Ok? && q.value == name {
          PartTaken(q.rest, Words(ns));
          if CheckTag(q.rest, PART).Ok? {
            var s4 := CheckTag(q.rest, PART).rest;
            WordsAlike(s4, ns);
            UseAlike(ReadWords(s4, 8), ns, AllFit(ns), TakeAll(Words(ns), s4));
          }
        }
      }
    }
  }

  // ----------------------------------------------------------------- functions

  lemma ListsAlike(s: Bytes, l: Lists, ns: seq<nat>)
    requires |ns| == 8
    requires |l.literals| == ns[0] && |l.params| == ns[1] && |l.outers| == ns[2] && |l.locals| == ns[3]
    ensures Alike(LoadLists(s, ns), l, ListsWritable(l), TakeAll(ListFields(l), s))
  {
    hide LoadLists, TakeAll, ListFields, AllWritable, AllOuters, AllLocals;
    forall r ensures LoadLists(s, ns) == Ok(l, r) <==> ListsWritable(l) && TakeAll(ListFields(l), s) == Some(r) {
      ListsRead(s, l, ns, r);
    }
  }

  lemma BlocksAlike(s: Bytes, b: Blocks, ns: seq<nat>)
    requires |ns| == 8 && |b.lines| == LINESIZE * ns[4] && |b.defaults| == WORD * ns[5] && |b.code| == INSTRSIZE * ns[6]
    ensures Alike(LoadBlocks(s, ns), b, true, TakeAll(BlockFields(b), s))
  {
    hide LoadBlocks, TakeAll, BlockFields;
    forall r ensures LoadBlocks(s, ns) == Ok(b, r) <==> TakeAll(BlockFields(b), s) == Some(r) { BlocksRead(s, b, ns, r); }
  }

  lemma TailAlike(s: Bytes, p: Proto)
    ensures Alike(LoadTail(s), (p.stackSize, p.generator, p.varparams), Fits(p.stackSize, WORD) && Fits(p.varparams, WORD),
                  TakeAll(TailFields(p.stackSize, p.generator, p.varparams), s))
  {
    hide LoadTail, TakeAll, TailFields, Fits;
    forall r ensures LoadTail(s) == Ok((p.stackSize, p.generator, p.varparams), r)
      <==> Fits(p.stackSize, WORD) && Fits(p.varparams, WORD) && TakeAll(TailFields(p.stackSize, p.generator, p.varparams), s) == Some(r)
    {
      TailReads(s, p.stackSize, p.generator, p.varparams, r);
    }
  }

  lemma HeadAlike(s: Bytes, p: Proto)
    ensures Alike(LoadHead(s), (p.source, p.name, Counts(p)), Writable(p.source) && Writable(p.name) && AllFit(Counts(p)),
                  TakeAll(HeadFields(p.source, p.name, Counts(p)), s))
  {
    hide LoadHead, TakeAll, HeadFields, AllFit, Writable, Counts;
    var ns := Counts(p);
    forall r ensures LoadHead(s) == Ok((p.source, p.name, ns), r)
      <==> Writable(p.source) && Writable(p.name) && AllFit(ns) && TakeAll(HeadFields(p.source, p.name, ns), s) == Some(r)
    {
      HeadReads(s, p.source, p.name, ns, r);
    }
  }

  /** The blocks are made of whole records. */
  predicate Whole(p: Proto) { |p.lines| % LINESIZE == 0 && |p.defaults| % WORD == 0 && |p.code| % INSTRSIZE == 0 }

  lemma ListSizes(s: Bytes, ns: seq<nat>)
    requires |ns| == 8 && LoadLists(s, ns).Ok?
    ensures var l := LoadLists(s, ns).value;
      |l.literals| == ns[0] && |l.params| == ns[1] && |l.outers| == ns[2] && |l.locals| == ns[3]
  {
    hide ReadPartValues, ReadPartOuters, ReadPartLocals;
  }

  lemma BlockSizes(s: Bytes, ns: seq<nat>)
    requires |ns| == 8 && LoadBlocks(s, ns).Ok?
    ensures var b := LoadBlocks(s, ns).value;
      |b.lines| == LINESIZE * ns[4] && |b.defaults| == WORD * ns[5] && |b.code| == INSTRSIZE * ns[6]
  {
    hide ReadPartBlock;
  }

  /** The counts read are those of the function that comes out. */
  lemma LoadSizes(s: Bytes)
    requires Load(s).Ok?
    ensures var p := Load(s).value; Whole(p) && LoadHead(s).Ok? && LoadHead(s).value == (p.source, p.name, Counts(p))
  {
    hide LoadHead, LoadLists, LoadBlocks, LoadTail, CheckTag, LoadAll;
    var h := LoadHead(s);
    var ns := h.value.2;
    var l := LoadLists(h.rest, ns);
    ListSizes(h.rest, ns);
    BlockSizes(l.rest, ns);
    var p := Load(s).value;
    assert Counts(p) == ns;
  }

  lemma SavableIs(p: Proto)
    ensures Savable(p) <==> Writable(p.source) && Writable(p.name) && AllFit(Counts(p)) && Whole(p) && BodyWritable(p)
  {
    hide Writable, Fits, Counts, OuterWritable, LocalWritable;
  }

  lemma LayoutIs(p: Proto)
    ensures Layout(p) == HeadFields(p.source, p.name, Counts(p)) + BodyFields(p)
  {
    hide HeadFields, BodyFields;
  }

  /** Reading gives `p` exactly on the streams that start with the fields of `p`, in their order. */
  lemma {:induction false} LoadReads(s: Bytes, p: Proto, r: Bytes)
    ensures Load(s) == Ok(p, r) <==> Savable(p) && TakeAll(Layout(p), s) == Some(r)
    decreases p, 1
  {
    hide HeadFields, BodyFields, BodyWritable, TakeAll, Alike, Savable, Layout, LoadHead, Load, Counts, Fits, AllFit, Writable;
    var ns := Counts(p);
    SavableIs(p);
    LayoutIs(p);
    var a := HeadFields(p.source, p.name, ns);
    TakeJoin(a, BodyFields(p), s);
    HeadAlike(s, p);
    var h := LoadHead(s);
    UseAlike(h, (p.source, p.name, ns), Writable(p.source) && Writable(p.name) && AllFit(ns), TakeAll(a, s));
    if Load(s).Ok? { LoadSizes(s); }
    if Whole(p) && h.Ok? && h.value == (p.source, p.name, ns) { BodyReads(s, p, r); }
  }

  ghost predicate BodyWritable(p: Proto) {
    && ListsWritable(Lists(p.literals, p.params, p.outers, p.locals)) && AllSavable(p.functions)
    && Fits(p.stackSize, WORD) && Fits(p.varparams, WORD)
  }

  /** Behind the head. */
  lemma {:induction false} BodyReads(s: Bytes, p: Proto, r: Bytes)
    requires Whole(p) && LoadHead(s).Ok? && LoadHead(s).value == (p.source, p.name, Counts(p))
    ensures Load(s) == Ok(p, r) <==> BodyWritable(p) && TakeAll(BodyFields(p), LoadHead(s).rest) == Some(r)
    decreases p, 0
  {
    hide ListFields, BlockFields, TailFields, TakeAll, Alike, LoadHead, LoadLists, LoadBlocks, LoadTail, LoadAll, CheckTag, Fits;
    hide Part, Layouts, ListsWritable, AllSavable;
    var s1, ns, l, k := LoadHead(s).rest, Counts(p), Lists(p.literals, p.params, p.outers, p.locals), Blocks(p.lines, p.defaults, p.code);
    var b, c, d, e := ListFields(l), BlockFields(k), Part(Layouts(p.functions)), TailFields(p.stackSize, p.generator, p.varparams);
    TakeJoin(b, c + (d + e), s1);
    ListsAlike(s1, l, ns);
    var lists := LoadLists(s1, ns);
    UseAlike(lists, l, ListsWritable(l), TakeAll(b, s1));
    if lists.Ok? && lists.value == l {
      var s2 := lists.rest;
      TakeJoin(c, d + e, s2);
      BlocksAlike(s2, k, ns);
      var blocks := LoadBlocks(s2, ns);
      UseAlike(blocks, k, true, TakeAll(c, s2));
      if blocks.Ok? && blocks.value == k {
        var s3 := blocks.rest;
        TakeJoin(d, e, s3);
        PartTaken(s3, Layouts(p.functions));
        var mark := CheckTag(s3, PART);
        if mark.Ok? {
          ProtosAlike(mark.rest, p.functions);
          var fs := LoadAll(mark.rest, |p.functions|);
          UseAlike(fs, p.functions, AllSavable(p.functions), TakeAll(Layouts(p.functions), mark.rest));
          if fs.Ok? && fs.value == p.functions {
            TailAlike(fs.rest, p);
            UseAlike(LoadTail(fs.rest), (p.stackSize, p.generator, p.varparams), Fits(p.stackSize, WORD) && Fits(p.varparams, WORD),
                     TakeAll(e, fs.rest));
          }
        }
      }
    }
  }

  lemma {:induction false} ProtosAlike(s: Bytes, ps: seq<Proto>)
    ensures Alike(LoadAll(s, |ps|), ps, AllSavable(ps), TakeAll(Layouts(ps), s))
    decreases ps, 1
  {
    hide LoadAll, AllSavable, Layouts, TakeAll;
    forall r ensures LoadAll(s, |ps|) == Ok(ps, r) <==> AllSavable(ps) && TakeAll(Layouts(ps), s) == Some(r) { ProtosRead(s, ps, r); }
  }

  lemma {:induction false} ProtosRead(s: Bytes, ps: seq<Proto>, r: Bytes)
    ensures LoadAll(s, |ps|) == Ok(ps, r) <==> AllSavable(ps) && TakeAll(Layouts(ps), s) == Some(r)
    decreases ps, 0
  {
    hide Load, Savable, TakeAll, Layout;
    if ps != [] {
      TakeJoin(Layout(ps[0]), Layouts(ps[1..]), s);
      assert ps == [ps[0]] + ps[1..];
      var o, t := Load(s), TakeAll(Layout(ps[0]), s);
      if o.Ok? {
        LoadReads(s, ps[0], o.rest);
        ProtosRead(o.rest, ps[1..], r);
      }
      if t.Some? {
        LoadReads(s, ps[0], t.value);
        ProtosRead(t.value, ps[1..], r);
      }
    } else {
      TakeNone(s);
    }
  }

  // ------------------------------------------------------------------ closures

  lemma MarksAre()
    ensures Enc(HEAD, TAGSIZE) == Mark("SQIR").bytes && Enc(TAIL, TAGSIZE) == Mark("TAIL").bytes
    ensures Enc(1, TAGSIZE) == [1, 0, 0, 0] && Enc(WORD, TAGSIZE) == [8, 0, 0, 0] && Enc(FLOATSIZE, TAGSIZE) == [4, 0, 0, 0]
  {
    hide Enc;
    FourBytes(HEAD, 'R' as int, 'I' as int, 'Q' as int, 'S' as int);
    FourBytes(TAIL, 'L' as int, 'I' as int, 'A' as int, 'T' as int);
    FourBytes(1, 1, 0, 0, 0);
    FourBytes(WORD, 8, 0, 0, 0);
    FourBytes(FLOATSIZE, 4, 0, 0, 0);
  }

  lemma StreamHeadTaken(s: Bytes, fs: seq<Field>)
    ensures TakeAll([Mark("SQIR")] + ([Raw([1, 0, 0, 0])] + ([Raw([8, 0, 0, 0])] + ([Raw([4, 0, 0, 0])] + fs))), s)
      == if LoadStreamHead(s).Fail? then None else TakeAll(fs, LoadStreamHead(s).rest)
  {
    hide Enc, CheckTag, Take, TakeAll, Fits;
    MarksAre();
    ObjectTagsFit();
    SizesFit();
    var a, b, c, d := Mark("SQIR"), Raw([1, 0, 0, 0]), Raw([8, 0, 0, 0]), Raw([4, 0, 0, 0]);
    TakeCons(a, [b] + ([c] + ([d] + fs)), s);
    MarkTaken(s, HEAD, a.bytes);
    if Take(a, s).Some? {
      var s1 := Take(a, s).value;
      TakeCons(b, [c] + ([d] + fs), s1);
      MarkTaken(s1, 1, b.bytes);
      if Take(b, s1).Some? {
        var s2 := Take(b, s1).value;
        TakeCons(c, [d] + fs, s2);
        MarkTaken(s2, WORD, c.bytes);
        if Take(c, s2).Some? {
          TakeCons(d, fs, Take(c, s2).value);
          MarkTaken(Take(c, s2).value, FLOATSIZE, d.bytes);
        }
      }
    }
  }

  /** A stream loads as `p` exactly if it starts with the fields of a closure of `p`. */
  lemma ClosureReads(s: Bytes, p: Proto, r: Bytes)
    ensures LoadClosure(s) == Ok(p, r) <==> Savable(p) && TakeAll(ClosureLayout(p), s) == Some(r)
  {
    hide Enc, CheckTag, Take, TakeAll, Fits, Load, LoadStreamHead, Layout, Savable;
    MarksAre();
    ObjectTagsFit();
    StreamHeadTaken(s, Layout(p) + [Mark("TAIL")]);
    if LoadStreamHead(s).Ok? {
      var s1 := LoadStreamHead(s).rest;
      TakeJoin(Layout(p), [Mark("TAIL")], s1);
      var o, t := Load(s1), TakeAll(Layout(p), s1);
      if o.Ok? {
        LoadReads(s1, p, o.rest);
        TailTaken(o.rest);
      }
      if t.Some? {
        LoadReads(s1, p, t.value);
        TailTaken(t.value);
      }
    }
  }

  lemma TailTaken(s: Bytes)
    ensures TakeAll([Mark("TAIL")], s) == if CheckTag(s, TAIL).Ok? then Some(CheckTag(s, TAIL).rest) else None
  {
    hide Enc, CheckTag, Take, TakeAll, Fits;
    MarksAre();
    ObjectTagsFit();
    MarkTaken(s, TAIL, Mark("TAIL").bytes);
    TakeOne(Mark("TAIL"), s);
  }

  /** What the writer puts out is made of the fields of a closure, and of nothing else. */
  lemma ClosureWritten(p: Proto, junk: nat -> Bytes)
    requires Savable(p) && Padding(junk)
    ensures TakeAll(ClosureLayout(p), SaveClosure(p, junk)) == Some([])
  {
    hide Savable, LoadClosure, ClosureLayout, TakeAll, SaveClosure;
    RoundTrip(p, junk, []);
    assert SaveClosure(p, junk) + [] == SaveClosure(p, junk);
    ClosureReads(SaveClosure(p, junk), p, []);
  }
}
