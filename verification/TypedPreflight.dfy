/**
 * The reflective preflight over typed payload structs. It sizes a struct without building the map
 * that is finally encoded, and has to come to the same result as the preflight of that map.
 */
module TypedPreflight {
  import opened Octets
  import opened Options
  import opened Grammar
  import opened KeyOrder
  import opened Values
  import opened Admission
  import opened Codec

  /** What reflection sees of a payload struct. */
  datatype Typed =
    | Pointer(target: Option<Typed>)
    | Interface(dynamic: Option<Typed>)
    | Boolean(b: bool)
    | Integer(n: int)
    | Text(s: seq<Octet>)
    | Octets(isNil: bool, octets: seq<Octet>)
    | Slice(isNil: bool, elements: seq<Typed>)
    | Struct(fields: seq<Field>)

  /** A struct field with its cbor tag; a dash leaves the field out. */
  datatype Field = Field(tag: seq<Octet>, dash: bool, omitEmpty: bool, value: Typed)

  /** Go's reflect.Value.IsZero. */
  predicate IsZero(t: Typed)
    decreases t
  {
    match t
    case Pointer(p) => p.None?
    case Interface(i) => i.None?
    case Boolean(b) => !b
    case Integer(n) => n == 0
    case Text(s) => s == []
    case Octets(isNil, _) => isNil
    case Slice(isNil, _) => isNil
    case Struct(fields) => forall f | f in fields :: IsZero(f.value)
  }

  predicate Omitted(f: Field) { f.dash || (f.omitEmpty && IsZero(f.value)) }

  /**
   * The value a struct stands for: nil pointers, nil interfaces and nil byte strings are null,
   * slices are arrays, and a struct is the map from its tags to its fields.
   */
  function Project(t: Typed): Value
    decreases t, 1
  {
    match t
    case Pointer(None) => Null
    case Pointer(Some(x)) => Project(x)
    case Interface(None) => Null
    case Interface(Some(x)) => Project(x)
    case Boolean(b) => Bool(b)
    case Integer(n) => Int(n)
    case Text(s) => TextString(s)
    case Octets(isNil, s) => if isNil then Null else ByteString(s)
    case Slice(_, xs) => Array(ProjectAll(xs))
    case Struct(fields) => Map(ProjectFields(fields))
  }

  function ProjectAll(xs: seq<Typed>): (vs: seq<Value>)
    ensures |vs| == |xs|
    ensures forall i | 0 <= i < |xs| :: vs[i] == Project(xs[i])
    decreases xs, 0
  {
    if xs == [] then [] else [Project(xs[0])] + ProjectAll(xs[1..])
  }

  function ProjectFields(fields: seq<Field>): map<Value, Value>
    decreases fields, 0
  {
    if fields == [] then map[]
    else if Omitted(fields[0]) then ProjectFields(fields[1..])
    else ProjectFields(fields[1..])[TextString(fields[0].tag) := Project(fields[0].value)]
  }

  predicate DistinctTags(fields: seq<Field>) {
    forall i, j | 0 <= i < j < |fields| :: fields[i].tag != fields[j].tag
  }

  /** A struct type has distinct tags at every level, and a nil slice of octets holds none. */
  predicate Declared(t: Typed)
    decreases t
  {
    match t
    case Pointer(Some(x)) => Declared(x)
    case Interface(Some(x)) => Declared(x)
    case Octets(isNil, s) => isNil ==> s == []
    case Slice(isNil, xs) => (isNil ==> xs == []) && forall x | x in xs :: Declared(x)
    case Struct(fields) =>
      && DistinctTags(fields)
      && forall f | f in fields :: Declared(f.value)
    case _ => true
  }

  /** The keys of a struct's map, in the order of its fields. */
  function Tags(fields: seq<Field>): seq<Value>
    decreases |fields|
  {
    if fields == [] then []
    else if Omitted(fields[0]) then Tags(fields[1..])
    else [TextString(fields[0].tag)] + Tags(fields[1..])
  }

  ghost predicate IsTag(fields: seq<Field>, k: Value) { exists f | f in fields :: k == TextString(f.tag) }

  lemma {:induction false} TagsAreTags(fields: seq<Field>)
    ensures forall k | k in Tags(fields) :: IsTag(fields, k)
    decreases fields
  {
    if fields != [] {
      TagsAreTags(fields[1..]);
      forall k | k in Tags(fields)
        ensures IsTag(fields, k)
      {
        if k in Tags(fields[1..]) {
          var f :| f in fields[1..] && k == TextString(f.tag);
          assert f in fields;
        } else {
          assert fields[0] in fields && k == TextString(fields[0].tag);
        }
      }
    }
  }

  lemma {:induction false} TagsListKeys(fields: seq<Field>)
    requires DistinctTags(fields)
    ensures Lists(Tags(fields), ProjectFields(fields).Keys)
    decreases fields
  {
    if fields != [] {
      TagsListKeys(fields[1..]);
      TagsAreTags(fields[1..]);
      FirstTagIsNew(fields);
    }
  }

  lemma FirstTagIsNew(fields: seq<Field>)
    requires fields != [] && DistinctTags(fields)
    ensures !IsTag(fields[1..], TextString(fields[0].tag))
  {
  }

  lemma {:induction false} TagsAppend(a: seq<Field>, b: seq<Field>)
    ensures Tags(a + b) == Tags(a) + Tags(b)
    decreases |a|
  {
    if a == [] {
      assert a + b == b;
    } else {
      TagsAppend(a[1..], b);
      assert (a + b)[1..] == a[1..] + b;
    }
  }

  /** The field at i is the entry of its tag. */
  lemma {:induction false} FieldIsEntry(fields: seq<Field>, i: nat)
    requires DistinctTags(fields) && i < |fields| && !Omitted(fields[i])
    ensures TextString(fields[i].tag) in ProjectFields(fields)
    ensures ProjectFields(fields)[TextString(fields[i].tag)] == Project(fields[i].value)
    decreases fields
  {
    if i > 0 {
      FieldIsEntry(fields[1..], i - 1);
      assert fields[0].tag != fields[i].tag;
    }
  }

  lemma TagsNone()
    ensures Tags([]) == []
  {
  }

  /** How the visited tags grow at field i. */
  lemma TagsAt(fields: seq<Field>, i: nat)
    requires DistinctTags(fields) && i < |fields|
    ensures Omitted(fields[i]) ==> Tags(fields[..i + 1]) == Tags(fields[..i])
    ensures !Omitted(fields[i]) ==> Tags(fields[..i + 1]) == Tags(fields[..i]) + [TextString(fields[i].tag)]
    ensures Distinct(Tags(fields[..i + 1]))
    ensures forall k | k in Tags(fields[..i + 1]) :: k in ProjectFields(fields)
  {
    hide ProjectFields, Project, Omitted, Tags, Lists, DistinctTags, Distinct;
    assert fields[..i + 1] == fields[..i] + [fields[i]];
    assert fields == fields[..i + 1] + fields[i + 1..];
    TagsOfOne(fields[i]);
    TagsAppend(fields[..i], [fields[i]]);
    TagsAppend(fields[..i + 1], fields[i + 1..]);
    TagsListKeys(fields);
    FrontIsListed(Tags(fields[..i + 1]), Tags(fields[i + 1..]), ProjectFields(fields).Keys);
  }

  lemma TagsOfOne(f: Field)
    ensures Tags([f]) == if Omitted(f) then [] else [TextString(f.tag)]
  {
    assert [f][1..] == [];
  }

  lemma FrontIsListed(a: seq<Value>, b: seq<Value>, keys: set<Value>)
    requires Lists(a + b, keys)
    ensures Distinct(a) && forall k | k in a :: k in keys
  {
    assert forall i | 0 <= i < |a| :: (a + b)[i] == a[i];
  }

  /** Sizes a struct as the preflight of its map would. */
  method PreflightTrustedValue(t: Typed, l: Limits, depth: nat, count: nat) returns (ok: bool, size: nat, counted: nat)
    requires Declared(t)
    ensures Preflighted(Project(t), l, depth, count, ok, size, counted)
    decreases t, 1
  {
    LeafTally(Project(t));
    ShallowFits(Project(t), l, depth);
    Low64Small(1);
    hide Fits, Wire, Nodes, Enc, Utf8, ArgumentSize, IntegerSize, Low64, ProjectAll, ProjectFields;
    counted := count;
    size := 0;
    if depth > l.maximumDepth {
      return false, size, counted;
    }
    if t.Pointer? {
      if t.target.None? {
        counted := counted + 1;
        return counted <= l.maximumItems, 1, counted;
      }
      ok, size, counted := PreflightTrustedValue(t.target.value, l, depth, counted);
      return;
    }
    if t.Interface? {
      if t.dynamic.None? {
        counted := counted + 1;
        return counted <= l.maximumItems, 1, counted;
      }
      ok, size, counted := PreflightTrustedValue(t.dynamic.value, l, depth, counted);
      return;
    }
    counted := counted + 1;
    if counted > l.maximumItems {
      return false, size, counted;
    }
    match t
    case Boolean(_) => return true, 1, counted;
    case Integer(n) =>
      var s := IntegerSize(n);
      if s.None? {
        return false, size, counted;
      }
      Low64Small(s.value);
      return true, s.value, counted;
    case Text(s) =>
      if !Utf8(s) || |s| > l.maximumTextBytes {
        return false, size, counted;
      }
      Low64Small(ArgumentSize(|s|) + |s|);
      return true, ArgumentSize(|s|) + |s|, counted;
    case Octets(isNil, s) =>
      if isNil {
        return true, 1, counted;
      }
      if |s| > l.maximumByteStringLength {
        return false, size, counted;
      }
      Low64Small(ArgumentSize(|s|) + |s|);
      return true, ArgumentSize(|s|) + |s|, counted;
    case Slice(_, xs) =>
      if |xs| > l.maximumArrayLength {
        return false, size, counted;
      }
      ok, size, counted := PreflightSlice(xs, l, depth, counted);
    case Struct(fields) =>
      ok, size, counted := PreflightStruct(fields, l, depth, counted);
  }

  method PreflightSlice(xs: seq<Typed>, l: Limits, depth: nat, count: nat) returns (ok: bool, size: nat, counted: nat)
    requires forall x | x in xs :: Declared(x)
    requires |xs| <= l.maximumArrayLength && depth <= l.maximumDepth && 1 <= count <= l.maximumItems
    ensures Preflighted(Array(ProjectAll(xs)), l, depth, count - 1, ok, size, counted)
    decreases xs, 0
  {
    hide Wire, Nodes, Enc, Fits, ValueTally, RunTally, Project;
    ghost var vs := ProjectAll(xs);
    size := ArgumentSize(|xs|);
    counted := count;
    RunTallyNone();
    Low64Small(size);
    for i := 0 to |xs|
      invariant forall x | x in vs[..i] :: Fits(x, TextRules(l), depth + 1, false, LEAST_SAFE)
      invariant size == Low64(ArgumentSize(|xs|) + RunTally(vs[..i]).0)
      invariant counted == count + RunTally(vs[..i]).1 <= l.maximumItems
    {
      var s;
      ghost var before := RunTally(vs[..i]);
      RunTallySnoc(vs, i);
      ok, s, counted := PreflightTrustedValue(xs[i], l, depth + 1, counted);
      PreflightedTally(vs[i], l, depth + 1, count + before.1, ok, s, counted);
      if !ok {
        assert vs[i] in vs;
        ArrayPasses(vs, l, depth);
        return false, size, counted;
      }
      Add64Wraps(ArgumentSize(|xs|) + before.0, ValueTally(vs[i]).0);
      size := Add64(size, s);
      assert vs[..i + 1] == vs[..i] + [vs[i]];
    }
    assert vs[..|xs|] == vs;
    ArrayPasses(vs, l, depth);
    ok := true;
  }

  method PreflightStruct(fields: seq<Field>, l: Limits, depth: nat, count: nat) returns (ok: bool, size: nat, counted: nat)
    requires DistinctTags(fields) && forall f | f in fields :: Declared(f.value)
    requires depth <= l.maximumDepth && 1 <= count <= l.maximumItems
    ensures Preflighted(Map(ProjectFields(fields)), l, depth, count - 1, ok, size, counted)
    decreases fields, 0
  {
    hide Wire, Nodes, Enc, Fits, FitsEntry, FieldFits, FieldTally, ValueTally, Tally, EntryTally, Low64, Order, Project,
      ProjectFields, Omitted, Declared, DistinctTags, Tags;
    ghost var m := ProjectFields(fields);
    TagsNone();
    assert fields[..0] == [];
    TagsListKeys(fields);
    ListsLength(Tags(fields), m.Keys);
    counted := count;
    var entries := 0;
    for i := 0 to |fields|
      invariant entries == |Tags(fields[..i])|
    {
      TagsAt(fields, i);
      if !Omitted(fields[i]) {
        entries := entries + 1;
      }
    }
    assert fields[..|fields|] == fields;
    if entries > l.maximumMapEntries {
      TooManyEntries(m, l, depth);
      return false, 0, counted;
    }
    size := ArgumentSize(entries);
    TallyNone(m);
    Low64Small(size);
    for i := 0 to |fields|
      invariant forall k | k in Tags(fields[..i]) :: k in m
      invariant forall k | k in Tags(fields[..i]) :: k.TextString? && FitsEntry(m, k, l, depth + 1)
      invariant size == Low64(ArgumentSize(|m|) + Tally(m, Tags(fields[..i])).0)
      invariant counted == count + Tally(m, Tags(fields[..i])).1 <= l.maximumItems
    {
      TagsAt(fields, i);
      if !Omitted(fields[i]) {
        ghost var k := TextString(fields[i].tag);
        ghost var before := Tally(m, Tags(fields[..i]));
        FieldIsEntry(fields, i);
        TallySnoc(m, Tags(fields[..i]), k);
        var s;
        ok, s, counted := PreflightField(fields[i], l, depth, counted);
        PreflightedField(m, k, fields[i], l, depth);
        if !ok {
          MapPasses(m, l, depth);
          return false, size, counted;
        }
        Add64Wraps(ArgumentSize(|m|) + before.0, EntryTally(m, k).0);
        size := Add64(size, s);
      }
    }
    TallyOrder(m, Tags(fields), Order(m));
    MapPasses(m, l, depth);
    ok := true;
  }

  lemma TooManyEntries(m: map<Value, Value>, l: Limits, depth: nat)
    requires |m| > l.maximumMapEntries
    ensures !Fits(Map(m), TextRules(l), depth, false, LEAST_SAFE)
  {
  }

  /** The key and the value of one field. */
  method PreflightField(f: Field, l: Limits, depth: nat, count: nat) returns (ok: bool, size: nat, counted: nat)
    requires Declared(f.value)
    ensures ok <==> FieldFits(f, l, depth + 1) && count + FieldTally(f).1 <= l.maximumItems
    ensures ok ==> size == Low64(FieldTally(f).0) && counted == count + FieldTally(f).1
    decreases f, 0
  {
    hide Wire, Nodes, Enc, Fits, ValueTally, Low64, Project;
    var keySize, valueSize;
    ghost var k, v := TextString(f.tag), Project(f.value);
    ok, keySize, counted := PreflightValue(TextString(f.tag), l, depth + 1, count);
    PreflightedTally(k, l, depth + 1, count, ok, keySize, counted);
    if !ok {
      return false, 0, counted;
    }
    ok, valueSize, counted := PreflightTrustedValue(f.value, l, depth + 1, counted);
    PreflightedTally(v, l, depth + 1, count + ValueTally(k).1, ok, valueSize, counted);
    Add64Wraps(ValueTally(k).0, ValueTally(v).0);
    size := if ok then Add64(keySize, valueSize) else 0;
  }

  ghost predicate FieldFits(f: Field, l: Limits, depth: nat) {
    Fits(TextString(f.tag), TextRules(l), depth, false, LEAST_SAFE) && Fits(Project(f.value), TextRules(l), depth, false, LEAST_SAFE)
  }

  ghost function FieldTally(f: Field): (nat, nat) {
    (ValueTally(TextString(f.tag)).0 + ValueTally(Project(f.value)).0, ValueTally(TextString(f.tag)).1 + ValueTally(Project(f.value)).1)
  }

  lemma PreflightedField(m: map<Value, Value>, k: Value, f: Field, l: Limits, depth: nat)
    requires k == TextString(f.tag) && k in m && m[k] == Project(f.value)
    ensures FieldFits(f, l, depth + 1) <==> FitsEntry(m, k, l, depth + 1)
    ensures FieldTally(f).0 == EntryTally(m, k).0 && FieldTally(f).1 == EntryTally(m, k).1
  {
    EntryTallySplits(m, k);
  }
}
