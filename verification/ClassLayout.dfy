/** Classes: every member name maps to a number that says whether the member is a
    field or a method and where its value is kept. */
module ClassLayout {
  import opened Common

  datatype Value = Data(n: int) | Closure(n: int) | Native(n: int)

  // ------------------------------------------------------------------- encoding

  const METHOD: nat := 0x01000000
  const FIELD: nat := 0x02000000
  const MAX: nat := 0x00FFFFFF

  /** Bit test, bit set and mask with single-bit constants, on naturals. */
  predicate HasBit(o: nat, bit: nat)
    requires bit > 0
  {
    (o / bit) % 2 == 1
  }

  function SetBit(o: nat, bit: nat): nat
    requires bit > 0
  {
    if HasBit(o, bit) then o else o + bit
  }

  predicate IsMethod(o: nat) { HasBit(o, METHOD) }
  predicate IsField(o: nat) { HasBit(o, FIELD) }
  function Index(o: nat): nat { o % 0x01000000 }
  function MethodAt(i: nat): nat { SetBit(i, METHOD) }
  function FieldAt(i: nat): nat { SetBit(i, FIELD) }

  /** Twenty-four bits: an encoded index decodes to its own kind and position. */
  lemma Decodes(i: nat)
    requires i <= MAX
    ensures IsMethod(MethodAt(i)) && !IsField(MethodAt(i)) && Index(MethodAt(i)) == i
    ensures IsField(FieldAt(i)) && !IsMethod(FieldAt(i)) && Index(FieldAt(i)) == i
  {
  }

  // --------------------------------------------------------------------- classes

  datatype Class<!K> = Class(members: map<K, nat>, defaults: seq<Value>, methods: seq<Value>, metamethods: map<nat, Value>,
                             ctor: int, locked: bool, base: int)

  datatype Instance = Instance(cls: nat, values: seq<Value>)

  /** The number of a member stands for a field or a method that exists. */
  ghost predicate Stored<K>(c: Class<K>, k: K)
    requires k in c.members
  {
    var o := c.members[k];
    && Index(o) <= MAX
    && if IsField(o) then o == FieldAt(Index(o)) && Index(o) < |c.defaults| else o == MethodAt(Index(o)) && Index(o) < |c.methods|
  }

  /** Every member is stored, no two in the same place. */
  ghost predicate Slotted<K>(c: Class<K>) {
    && (forall k :: k in c.members ==> Stored(c, k))
    && (forall j, k :: j in c.members && k in c.members && j != k ==> c.members[j] != c.members[k])
    && -1 <= c.ctor < |c.methods|
  }

  /** `fields` and `functions` are the names that ever took a field or a method slot: one slot each. */
  ghost predicate Counted<K>(c: Class<K>, fields: set<K>, functions: set<K>) {
    && fields <= c.members.Keys && functions <= c.members.Keys
    && |fields| == |c.defaults| && |functions| == |c.methods|
    && |c.members| <= MAX
    && (forall k :: k in c.members && !IsField(c.members[k]) ==> k !in fields && k in functions)
  }

  ghost predicate Laid<K>(c: Class<K>, fields: set<K>, functions: set<K>) {
    Slotted(c) && Counted(c, fields, functions)
  }

  /** The value a class gives for a name. */
  function Lookup<K>(c: Class<K>, k: K): Option<Value> {
    if k !in c.members then None else
      var o := c.members[k];
      if IsField(o) then (if Index(o) < |c.defaults| then Some(c.defaults[Index(o)]) else None)
      else if Index(o) < |c.methods| then Some(c.methods[Index(o)]) else None
  }

  /** The value an instance gives for a name: its own for a field, the class's for a method. */
  function LookupIn<K>(c: Class<K>, values: seq<Value>, k: K): Option<Value> {
    if k in c.members && IsField(c.members[k])
    then (if Index(c.members[k]) < |values| then Some(values[Index(c.members[k])]) else None)
    else Lookup(c, k)
  }

  predicate Static(val: Value, isStatic: bool) { val.Closure? || val.Native? || isStatic }

  /** A slot named after a metamethod that gets a function does not become a member. */
  predicate IsMeta<K>(meta: K -> Option<nat>, k: K, val: Value) { (val.Closure? || val.Native?) && meta(k).Some? }

  /** The slot is refused: a locked class takes no new data, and no class more than MAX members. */
  predicate Refused<K>(c: Class<K>, k: K, val: Value, isStatic: bool) {
    || (c.locked && !Static(val, isStatic))
    || (!(k in c.members && IsField(c.members[k])) && |c.members| >= MAX)
  }

  function NewField<K>(c: Class<K>, k: K, val: Value): Class<K> {
    c.(members := c.members[k := FieldAt(|c.defaults|)], defaults := c.defaults + [val])
  }

  function NewMethod<K>(c: Class<K>, k: K, val: Value, isCtor: bool): Class<K> {
    c.(members := c.members[k := MethodAt(|c.methods|)], methods := c.methods + [val],
       ctor := if isCtor then |c.methods| else c.ctor)
  }

  /** The constructor that runs when the class is instantiated. */
  function Constructor<K>(c: Class<K>): Option<Value> {
    if 0 <= c.ctor < |c.methods| then Some(c.methods[c.ctor]) else None
  }

  /** There is a constructor if and only if its name ever took a method slot, and unless the name
      has become a field since, it stands for that slot. */
  ghost predicate CtorOf<K>(c: Class<K>, functions: set<K>, name: K) {
    && (c.ctor >= 0 <==> name in functions)
    && (name in functions && !IsFieldOf(c, name) ==> name in c.members && c.members[name] == MethodAt(c.ctor))
    && (forall j :: j in c.members && j != name && c.ctor >= 0 ==> c.members[j] != MethodAt(c.ctor))
  }

  /** Instantiating runs the function its class gives for the constructor's name, unless that is a field. */
  lemma ConstructorIsMember<K>(c: Class<K>, fields: set<K>, functions: set<K>, name: K)
    requires Laid(c, fields, functions) && CtorOf(c, functions, name)
    ensures Constructor(c).Some? <==> name in functions
    ensures Constructor(c).Some? && !IsFieldOf(c, name) ==> Constructor(c) == Lookup(c, name)
  {
    hide HasBit, SetBit, Index;
    Room(c, fields, functions);
    if c.ctor >= 0 { Decodes(c.ctor); }
  }

  /** The slot becomes a method of its own. */
  predicate TakesMethod<K>(c: Class<K>, meta: K -> Option<nat>, k: K, val: Value, isStatic: bool) {
    !Refused(c, k, val, isStatic) && Static(val, isStatic) && !IsMeta(meta, k, val) && k !in c.members
  }

  function SetAt(s: seq<Value>, i: nat, v: Value): (r: seq<Value>)
    ensures |r| == |s|
  {
    if i < |s| then s[i := v] else s
  }

  // ---------------------------------------------------------------------- lemmas

  lemma Room<K>(c: Class<K>, fields: set<K>, functions: set<K>)
    requires Laid(c, fields, functions)
    ensures |c.defaults| <= |c.members| && |c.methods| <= |c.members|
  {
    SubsetSize(fields, c.members.Keys);
    SubsetSize(functions, c.members.Keys);
  }

  lemma MapSize<K>(m: map<K, nat>, k: K, o: nat)
    ensures |m[k := o]| <= |m| + 1 && m[k := o].Keys == m.Keys + {k}
    ensures k in m ==> |m[k := o]| == |m|
  {
    assert m[k := o].Keys == m.Keys + {k};
    if k in m { assert m[k := o].Keys == m.Keys; assert |m[k := o].Keys| == |m.Keys|; } else { OneMoreKey(m, k, o); }
  }

  lemma FieldCounted<K>(c: Class<K>, fields: set<K>, functions: set<K>, k: K, val: Value)
    requires Laid(c, fields, functions) && |c.members| < MAX && !IsFieldOf(c, k)
    ensures Counted(NewField(c, k, val), fields + {k}, functions)
  {
    hide HasBit, SetBit, Index, Slotted;
    Room(c, fields, functions);
    Decodes(|c.defaults|);
    MapSize(c.members, k, FieldAt(|c.defaults|));
  }

  lemma FieldSlotted<K>(c: Class<K>, fields: set<K>, functions: set<K>, k: K, val: Value)
    requires Laid(c, fields, functions) && |c.members| < MAX && !IsFieldOf(c, k)
    ensures Slotted(NewField(c, k, val))
    ensures Lookup(NewField(c, k, val), k) == Some(val)
    ensures forall j :: j != k ==> Lookup(NewField(c, k, val), j) == Lookup(c, j)
  {
    hide HasBit, SetBit, Index, Counted;
    Room(c, fields, functions);
    Decodes(|c.defaults|);
    var d := NewField(c, k, val);
    forall j | j in d.members ensures Stored(d, j) { if j != k { assert Stored(c, j); } }
    forall j | j in d.members && j != k ensures d.members[j] != d.members[k] { assert Stored(c, j); }
    forall j | j != k ensures Lookup(d, j) == Lookup(c, j) { if j in c.members { assert Stored(c, j); } }
  }

  lemma MethodCounted<K>(c: Class<K>, fields: set<K>, functions: set<K>, k: K, val: Value, isCtor: bool)
    requires Laid(c, fields, functions) && |c.members| < MAX && k !in c.members
    ensures Counted(NewMethod(c, k, val, isCtor), fields, functions + {k})
  {
    hide HasBit, SetBit, Index, Slotted;
    Room(c, fields, functions);
    Decodes(|c.methods|);
    MapSize(c.members, k, MethodAt(|c.methods|));
  }

  lemma MethodSlotted<K>(c: Class<K>, fields: set<K>, functions: set<K>, k: K, val: Value, isCtor: bool)
    requires Laid(c, fields, functions) && |c.members| < MAX && k !in c.members
    ensures Slotted(NewMethod(c, k, val, isCtor))
    ensures Lookup(NewMethod(c, k, val, isCtor), k) == Some(val)
    ensures forall j :: j != k ==> Lookup(NewMethod(c, k, val, isCtor), j) == Lookup(c, j)
  {
    hide HasBit, SetBit, Index, Counted;
    Room(c, fields, functions);
    Decodes(|c.methods|);
    var d := NewMethod(c, k, val, isCtor);
    forall j | j in d.members ensures Stored(d, j) { if j != k { assert Stored(c, j); } }
    forall j | j in d.members && j != k ensures d.members[j] != d.members[k] { assert Stored(c, j); }
    forall j | j != k ensures Lookup(d, j) == Lookup(c, j) { if j in c.members { assert Stored(c, j); } }
  }

  lemma FieldCtor<K>(c: Class<K>, fields: set<K>, functions: set<K>, k: K, val: Value, name: K)
    requires Laid(c, fields, functions) && |c.members| < MAX && !IsFieldOf(c, k) && CtorOf(c, functions, name)
    ensures CtorOf(NewField(c, k, val), functions, name) && Constructor(NewField(c, k, val)) == Constructor(c)
  {
    hide HasBit, SetBit, Index;
    Room(c, fields, functions);
    Decodes(|c.defaults|);
    if c.ctor >= 0 { Decodes(c.ctor); }
  }

  /** A data slot under the constructor's name hides the constructor and does not replace it: instances are still set up by the
      old function, so that the class gives what it runs exactly if the data is that function. */
  lemma ConstructorHidden<K>(c: Class<K>, fields: set<K>, functions: set<K>, name: K, val: Value)
    requires Laid(c, fields, functions) && |c.members| < MAX && !IsFieldOf(c, name) && CtorOf(c, functions, name) && name in functions
    ensures Constructor(NewField(c, name, val)) == Constructor(c) == Lookup(c, name)
    ensures Constructor(NewField(c, name, val)) == Lookup(NewField(c, name, val), name) <==> Lookup(c, name) == Some(val)
  {
    hide Laid, CtorOf, Lookup, Constructor, HasBit, SetBit, Index;
    ConstructorIsMember(c, fields, functions, name);
    FieldCtor(c, fields, functions, name, val, name);
    FieldSlotted(c, fields, functions, name, val);
  }

  lemma MethodCtor<K>(c: Class<K>, fields: set<K>, functions: set<K>, k: K, val: Value, name: K)
    requires Laid(c, fields, functions) && |c.members| < MAX && k !in c.members && CtorOf(c, functions, name)
    ensures CtorOf(NewMethod(c, k, val, k == name), functions + {k}, name)
    ensures Constructor(NewMethod(c, k, val, k == name)) == if k == name then Some(val) else Constructor(c)
  {
    MethodFresh(c, fields, functions);
    assert -1 <= c.ctor < |c.methods|;
    hide *;
    if k == name {
      NewCtor(c, functions, k, val);
    } else {
      OtherMethod(c, functions, k, val, name);
    }
  }

  lemma NewCtor<K>(c: Class<K>, functions: set<K>, k: K, val: Value)
    requires !IsField(MethodAt(|c.methods|)) && forall j :: j in c.members ==> c.members[j] != MethodAt(|c.methods|)
    ensures CtorOf(NewMethod(c, k, val, true), functions + {k}, k) && Constructor(NewMethod(c, k, val, true)) == Some(val)
  {
    hide MethodAt, IsField;
  }

  lemma OtherMethod<K>(c: Class<K>, functions: set<K>, k: K, val: Value, name: K)
    requires k != name && CtorOf(c, functions, name) && -1 <= c.ctor < |c.methods| <= MAX
    ensures CtorOf(NewMethod(c, k, val, false), functions + {k}, name) && Constructor(NewMethod(c, k, val, false)) == Constructor(c)
  {
    if c.ctor >= 0 { MethodsApart(c.ctor, |c.methods|); }
    hide MethodAt, IsField;
  }

  /** No member stands for the next method slot. */
  lemma MethodFresh<K>(c: Class<K>, fields: set<K>, functions: set<K>)
    requires Laid(c, fields, functions) && |c.members| < MAX
    ensures |c.methods| <= MAX && !IsField(MethodAt(|c.methods|)) && forall j :: j in c.members ==> c.members[j] != MethodAt(|c.methods|)
  {
    hide HasBit, SetBit, Index, Counted;
    Room(c, fields, functions);
    Decodes(|c.methods|);
    forall j | j in c.members ensures c.members[j] != MethodAt(|c.methods|) { assert Stored(c, j); }
  }

  lemma MethodsApart(i: nat, j: nat)
    requires i < j <= MAX
    ensures MethodAt(i) != MethodAt(j)
  {
    hide HasBit, SetBit, Index;
    Decodes(i);
    Decodes(j);
  }

  /** Overwriting the constructor's method is what the constructor is from then on; overwriting anything else is not. */
  lemma OverwriteCtor<K>(c: Class<K>, fields: set<K>, functions: set<K>, k: K, val: Value, name: K)
    requires Laid(c, fields, functions) && k in c.members && CtorOf(c, functions, name)
    ensures CtorOf(Overwritten(c, k, val), functions, name)
    ensures Constructor(Overwritten(c, k, val)) == if k == name && !IsFieldOf(c, k) then Some(val) else Constructor(c)
  {
    hide HasBit, SetBit, Index;
    Room(c, fields, functions);
    assert Stored(c, k);
    if c.ctor >= 0 { Decodes(c.ctor); }
  }

  function Overwritten<K>(c: Class<K>, k: K, val: Value): Class<K>
    requires k in c.members
  {
    if IsField(c.members[k]) then c.(defaults := SetAt(c.defaults, Index(c.members[k]), val))
    else c.(methods := SetAt(c.methods, Index(c.members[k]), val))
  }

  /** Overwriting a stored value reaches that name only. */
  lemma OverwriteLaid<K>(c: Class<K>, fields: set<K>, functions: set<K>, k: K, val: Value)
    requires Laid(c, fields, functions) && k in c.members
    ensures Laid(Overwritten(c, k, val), fields, functions)
    ensures Lookup(Overwritten(c, k, val), k) == Some(val)
    ensures forall j :: j != k ==> Lookup(Overwritten(c, k, val), j) == Lookup(c, j)
  {
    hide HasBit, SetBit, Index;
    var d := Overwritten(c, k, val);
    assert Stored(c, k);
    forall j | j in d.members ensures Stored(d, j) { assert Stored(c, j); }
    forall j | j != k ensures Lookup(d, j) == Lookup(c, j) {
      if j in c.members { assert Stored(c, j) && c.members[j] != c.members[k]; }
    }
  }

  // ------------------------------------------------------------------ operations

  /** All classes, each after its base, and all instances. */
  class World<K(==, !new)> {
    const meta: K -> Option<nat>
    const ctorName: K
    var classes: seq<Class<K>>
    var instances: seq<Instance>
    ghost var fields: seq<set<K>>
    ghost var functions: seq<set<K>>

    ghost predicate Valid()
      reads this
    {
      && |fields| == |functions| == |classes|
      && (forall c :: 0 <= c < |classes| ==> Laid(classes[c], fields[c], functions[c]) && CtorOf(classes[c], functions[c], ctorName))
      && Based(classes)
      && (forall c :: 0 <= c < |classes| && classes[c].locked && classes[c].base >= 0 ==> classes[classes[c].base].locked)
      && (forall i :: 0 <= i < |instances| ==> Fitting(instances[i]))
    }

    /** An instance has exactly its class's fields, and its class takes no more. */
    ghost predicate Fitting(i: Instance)
      reads this
    {
      i.cls < |classes| && classes[i.cls].locked && |i.values| == |classes[i.cls].defaults|
    }

    constructor (meta: K -> Option<nat>, ctorName: K)
      ensures Valid() && classes == [] && instances == []
      ensures this.meta == meta && this.ctorName == ctorName
    {
      this.meta, this.ctorName := meta, ctorName;
      classes, instances, fields, functions := [], [], [], [];
    }

    /** A new class starts with everything its base has, unlocked. */
    method Derive(base: int) returns (c: nat)
      requires Valid() && -1 <= base < |classes|
      modifies this
      ensures Valid() && c == |old(classes)| && |classes| == c + 1 && classes[..c] == old(classes) && instances == old(instances)
      ensures !classes[c].locked && forall k :: Lookup(classes[c], k) == if base < 0 then None else Lookup(old(classes)[base], k)
      ensures classes[c].base == base && functions == old(functions) + [if base < 0 then {} else old(functions)[base]]
      ensures classes[c].metamethods == if base < 0 then map[] else old(classes)[base].metamethods
      ensures Constructor(classes[c]) == if base < 0 then None else Constructor(old(classes)[base])
    {
      hide Laid, HasBit, SetBit, Index;
      c := |classes|;
      EmptyLaid<K>();
      if base < 0 {
        classes := classes + [Empty()];
        fields, functions := fields + [{}], functions + [{}];
      } else {
        var b := classes[base];
        Relabelled(b, fields[base], functions[base], false, base);
        classes := classes + [b.(locked := false, base := base)];
        fields, functions := fields + [fields[base]], functions + [functions[base]];
      }
      forall i | 0 <= i < |instances| ensures Fitting(instances[i]) { assert old(Fitting(instances[i])); }
    }

    /** Adds or overwrites a member.  It is refused exactly when Refused says so; otherwise the
        class gives `val` for `k` and what it gave before for every other name. */
    method NewSlot(c: nat, k: K, val: Value, isStatic: bool) returns (ok: bool)
      requires Valid() && c < |classes|
      modifies this
      ensures Valid() && |classes| == |old(classes)| && instances == old(instances)
      ensures ok <==> !Refused(old(classes)[c], k, val, isStatic)
      ensures !ok ==> classes == old(classes)
      ensures forall d :: 0 <= d < |classes| && d != c ==> classes[d] == old(classes)[d]
      ensures ok && !(IsMeta(meta, k, val) && !IsFieldOf(old(classes)[c], k)) ==>
                && Lookup(classes[c], k) == Some(val)
                && forall j :: j != k ==> Lookup(classes[c], j) == Lookup(old(classes)[c], j)
      ensures ok && IsMeta(meta, k, val) && !IsFieldOf(old(classes)[c], k) ==>
                classes[c] == old(classes)[c].(metamethods := old(classes)[c].metamethods[meta(k).value := val])
      ensures functions == old(functions)[c := functions[c]]
      ensures functions[c] == old(functions)[c] + if TakesMethod(old(classes)[c], meta, k, val, isStatic) then {k} else {}
      ensures k != ctorName || !Static(val, isStatic) || IsFieldOf(old(classes)[c], k) || IsMeta(meta, k, val) ==>
                Constructor(classes[c]) == Constructor(old(classes)[c])
      ensures ok && k == ctorName && Static(val, isStatic) && !IsFieldOf(old(classes)[c], k) && !IsMeta(meta, k, val) ==>
                Constructor(classes[c]) == Some(val)
    {
      hide Slotted, Counted, Lookup, HasBit, SetBit, Index, SetAt, Constructor;
      var s := classes[c];
      var shared := Static(val, isStatic);
      if s.locked && !shared { return false; }
      if IsFieldOf(s, k) {
        OverwriteLaid(s, fields[c], functions[c], k, val);
        OverwriteCtor(s, fields[c], functions[c], k, val, ctorName);
        Replace(c, Overwritten(s, k, val), fields[c], functions[c]);
        return true;
      }
      if |s.members| >= MAX { return false; }
      if shared {
        NewStatic(c, k, val);
        return true;
      }
      FieldCounted(s, fields[c], functions[c], k, val);
      FieldSlotted(s, fields[c], functions[c], k, val);
      FieldCtor(s, fields[c], functions[c], k, val, ctorName);
      Replace(c, NewField(s, k, val), fields[c] + {k}, functions[c]);
      return true;
    }

    /** A member of the static part: a metamethod, a new method, or another value for a method. */
    method NewStatic(c: nat, k: K, val: Value)
      requires Valid() && c < |classes| && !IsFieldOf(classes[c], k) && |classes[c].members| < MAX
      modifies this`classes, this`fields, this`functions
      ensures Valid() && |classes| == |old(classes)| && classes == old(classes)[c := classes[c]]
      ensures !IsMeta(meta, k, val) ==>
                && Lookup(classes[c], k) == Some(val)
                && forall j :: j != k ==> Lookup(classes[c], j) == Lookup(old(classes)[c], j)
      ensures IsMeta(meta, k, val) ==>
                classes[c] == old(classes)[c].(metamethods := old(classes)[c].metamethods[meta(k).value := val])
      ensures functions == old(functions)[c := functions[c]]
      ensures functions[c] == old(functions)[c] + if !IsMeta(meta, k, val) && k !in old(classes)[c].members then {k} else {}
      ensures k != ctorName || IsMeta(meta, k, val) ==> Constructor(classes[c]) == Constructor(old(classes)[c])
      ensures k == ctorName && !IsMeta(meta, k, val) ==> Constructor(classes[c]) == Some(val)
    {
      hide Slotted, Counted, Lookup, HasBit, SetBit, Index, SetAt, Constructor;
      var s := classes[c];
      if IsMeta(meta, k, val) {
        MetaLaid(s, fields[c], functions[c], s.metamethods[meta(k).value := val]);
        MetaCtor(s, functions[c], s.metamethods[meta(k).value := val], ctorName);
        Replace(c, s.(metamethods := s.metamethods[meta(k).value := val]), fields[c], functions[c]);
      } else if k !in s.members {
        var isCtor := k == ctorName;
        MethodCounted(s, fields[c], functions[c], k, val, isCtor);
        MethodSlotted(s, fields[c], functions[c], k, val, isCtor);
        MethodCtor(s, fields[c], functions[c], k, val, ctorName);
        Replace(c, NewMethod(s, k, val, isCtor), fields[c], functions[c] + {k});
        assert classes[c] == NewMethod(s, k, val, isCtor);
      } else {
        OverwriteLaid(s, fields[c], functions[c], k, val);
        OverwriteCtor(s, fields[c], functions[c], k, val, ctorName);
        Replace(c, Overwritten(s, k, val), fields[c], functions[c]);
      }
    }

    method Replace(c: nat, s: Class<K>, ghost f: set<K>, ghost m: set<K>)
      requires Valid() && c < |classes| && Laid(s, f, m) && CtorOf(s, m, ctorName)
      requires s.locked == classes[c].locked && s.base == classes[c].base && (s.locked ==> |s.defaults| == |classes[c].defaults|)
      modifies this`classes, this`fields, this`functions
      ensures Valid() && classes == old(classes)[c := s] && functions == old(functions)[c := m]
    {
      hide Laid, CtorOf;
      classes := classes[c := s];
      fields, functions := fields[c := f], functions[c := m];
      forall i | 0 <= i < |instances| ensures Fitting(instances[i]) { assert old(Fitting(instances[i])); }
    }

    /** Locks the class and its bases, and no other class. */
    method Lock(c: nat)
      requires c < |classes| && Based(classes)
      modifies this`classes
      ensures |classes| == |old(classes)| && forall d :: 0 <= d < |classes| ==>
                classes[d] == old(classes)[d].(locked := old(classes)[d].locked || Inherits(old(classes), c, d))
      decreases c
    {
      ghost var was := classes;
      classes := classes[c := classes[c].(locked := true)];
      if classes[c].base >= 0 {
        ghost var mid := classes;
        Lock(classes[c].base);
        forall d | 0 <= d < |classes| ensures classes[d] == was[d].(locked := was[d].locked || Inherits(was, c, d)) {
          InheritsSame(was, mid, was[c].base, d);
        }
      }
    }

    /** A new instance gives for every name what its class gives; exactly the class and its bases are locked. */
    method CreateInstance(c: nat) returns (i: nat)
      requires Valid() && c < |classes|
      modifies this
      ensures Valid() && i == |old(instances)| && |instances| == i + 1 && instances[..i] == old(instances) && instances[i].cls == c
      ensures |classes| == |old(classes)| && forall d :: 0 <= d < |classes| ==>
                classes[d] == old(classes)[d].(locked := old(classes)[d].locked || Inherits(old(classes), c, d))
      ensures forall k :: LookupIn(classes[c], instances[i].values, k) == Lookup(classes[c], k)
    {
      hide Laid;
      if !classes[c].locked {
        Lock(c);
      } else {
        forall d | 0 <= d < |classes| && Inherits(classes, c, d) ensures classes[d].locked { LockedBases(classes, c, d); }
      }
      LockedLaid(old(classes), classes, fields, functions);
      forall d | 0 <= d < |classes| && classes[d].locked && classes[d].base >= 0 ensures classes[classes[d].base].locked {
        InheritsBase(old(classes), c, d);
      }
      i := |instances|;
      instances := instances + [Instance(c, classes[c].defaults)];
      forall j | 0 <= j < |instances| ensures Fitting(instances[j]) { if j < i { assert old(Fitting(instances[j])); } }
    }

    /** Writes a field of one instance: only a field can be written, and only that name changes. */
    method SetField(i: nat, k: K, val: Value) returns (ok: bool)
      requires Valid() && i < |instances|
      modifies this`instances
      ensures Valid() && |instances| == |old(instances)| && forall j :: 0 <= j < |instances| && j != i ==> instances[j] == old(instances)[j]
      ensures ok <==> IsFieldOf(classes[instances[i].cls], k)
      ensures !ok ==> instances == old(instances)
      ensures ok ==> instances[i].cls == old(instances)[i].cls
      ensures ok ==> LookupIn(classes[instances[i].cls], instances[i].values, k) == Some(val)
      ensures ok ==> forall j | j != k ::
        LookupIn(classes[instances[i].cls], instances[i].values, j)
        == LookupIn(classes[instances[i].cls], old(instances)[i].values, j)
    {
      hide Laid;
      assert Fitting(instances[i]);
      var c := classes[instances[i].cls];
      if !IsFieldOf(c, k) { return false; }
      FieldSet(c, fields[instances[i].cls], functions[instances[i].cls], instances[i].values, k, val);
      instances := instances[i := instances[i].(values := SetAt(instances[i].values, Index(c.members[k]), val))];
      forall j | 0 <= j < |instances| ensures Fitting(instances[j]) { assert old(Fitting(instances[j])); }
      return true;
    }
  }

  /** Every class comes after its base. */
  ghost predicate Based<K>(classes: seq<Class<K>>) {
    forall c :: 0 <= c < |classes| ==> -1 <= classes[c].base < c
  }

  /** `d` is `c` or one of its bases. */
  ghost predicate Inherits<K>(classes: seq<Class<K>>, c: int, d: int)
    requires Based(classes) && -1 <= c < |classes|
    decreases c
  {
    c >= 0 && (c == d || Inherits(classes, classes[c].base, d))
  }

  lemma {:induction false} InheritsSame<K>(a: seq<Class<K>>, b: seq<Class<K>>, c: int, d: int)
    requires |a| == |b| && Based(a) && Based(b) && -1 <= c < |a| && forall k :: 0 <= k <= c ==> b[k].base == a[k].base
    ensures Inherits(a, c, d) <==> Inherits(b, c, d)
    decreases c
  {
    if c >= 0 { InheritsSame(a, b, a[c].base, d); }
  }

  lemma {:induction false} LockedBases<K>(classes: seq<Class<K>>, c: int, d: int)
    requires Based(classes) && 0 <= c < |classes| && classes[c].locked && Inherits(classes, c, d)
    requires forall k :: 0 <= k < |classes| && classes[k].locked && classes[k].base >= 0 ==> classes[classes[k].base].locked
    ensures 0 <= d < |classes| && classes[d].locked
    decreases c
  {
    if c != d { LockedBases(classes, classes[c].base, d); }
  }

  /** The base of a class one inherits from is one too. */
  lemma {:induction false} InheritsBase<K>(classes: seq<Class<K>>, c: int, d: int)
    requires Based(classes) && -1 <= c < |classes| && 0 <= d < |classes| && classes[d].base >= 0
    ensures Inherits(classes, c, d) ==> Inherits(classes, c, classes[d].base)
    decreases c
  {
    if c >= 0 && c != d { InheritsBase(classes, classes[c].base, d); }
  }

  predicate IsFieldOf<K>(c: Class<K>, k: K) { k in c.members && IsField(c.members[k]) }

  function Empty<K>(): Class<K> { Class(map[], [], [], map[], -1, false, -1) }

  lemma EmptyLaid<K>()
    ensures Laid(Empty<K>(), {}, {}) && forall k: K :: Lookup(Empty(), k) == None
  {
  }

  lemma Relabelled<K>(c: Class<K>, fields: set<K>, functions: set<K>, locked: bool, base: int)
    requires Laid(c, fields, functions)
    ensures Laid(c.(locked := locked, base := base), fields, functions)
    ensures forall k :: Lookup(c.(locked := locked, base := base), k) == Lookup(c, k)
  {
    var d := c.(locked := locked, base := base);
    forall k | k in d.members ensures Stored(d, k) { assert Stored(c, k); }
  }

  lemma MetaLaid<K>(c: Class<K>, fields: set<K>, functions: set<K>, metas: map<nat, Value>)
    requires Laid(c, fields, functions)
    ensures Laid(c.(metamethods := metas), fields, functions)
  {
    forall k | k in c.members ensures Stored(c.(metamethods := metas), k) { assert Stored(c, k); }
  }

  lemma MetaCtor<K>(c: Class<K>, functions: set<K>, metas: map<nat, Value>, name: K)
    requires CtorOf(c, functions, name)
    ensures CtorOf(c.(metamethods := metas), functions, name) && Constructor(c.(metamethods := metas)) == Constructor(c)
  {
  }

  lemma LockedLaid<K>(a: seq<Class<K>>, b: seq<Class<K>>, fields: seq<set<K>>, functions: seq<set<K>>)
    requires |a| == |b| == |fields| == |functions| && forall d :: 0 <= d < |a| ==> b[d] == a[d].(locked := b[d].locked)
    requires forall d :: 0 <= d < |a| ==> Laid(a[d], fields[d], functions[d])
    ensures forall d :: 0 <= d < |b| ==> Laid(b[d], fields[d], functions[d])
  {
    forall d | 0 <= d < |b| ensures Laid(b[d], fields[d], functions[d]) {
      Relabelled(a[d], fields[d], functions[d], b[d].locked, a[d].base);
    }
  }

  lemma FieldSet<K>(c: Class<K>, fields: set<K>, functions: set<K>, values: seq<Value>, k: K, val: Value)
    requires Laid(c, fields, functions) && IsFieldOf(c, k) && |values| == |c.defaults|
    ensures var after := SetAt(values, Index(c.members[k]), val);
            && LookupIn(c, after, k) == Some(val)
            && forall j :: j != k ==> LookupIn(c, after, j) == LookupIn(c, values, j)
  {
    assert Stored(c, k);
    forall j | j != k && j in c.members
      ensures Index(c.members[j]) != Index(c.members[k]) || !IsField(c.members[j])
    {
      assert Stored(c, j);
    }
  }
}
