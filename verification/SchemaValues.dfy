/** Which JSON values a schema admits, and which are written. */
module SchemaValues {
  import opened Prelude
  import opened Schemas
  import opened SchemaFields
  import opened SchemaGens

  // ----- JSON ------------------------------------------------------------------

  /** What a string can be read as. */
  datatype Form = Words | Base64 | Timestamp

  /** The least precision that holds a number. */
  datatype Precision = Single | Double | Beyond

  datatype Json =
    | JNull
    | JBool
    | JText(form: Form)
    | JWhole(n: int)
    | JFraction(precision: Precision)
    | JList(items: seq<Json>)
    | JObject(members: seq<Member>)

  datatype Member = Member(name: string, value: Json)

  predicate HasMember(members: seq<Member>, name: string) {
    exists i :: 0 <= i < |members| && members[i].name == name
  }

  // ----- what a schema admits ----------------------------------------------------

  /** By the type and the format of a schema that has nothing else. */
  predicate PlainAdmits(kind: string, format: string, j: Json) {
    match j
    case JText(form) =>
      kind == "string" && (format == "byte" ==> form.Base64?) && (format == "date-time" ==> form.Timestamp?)
    case JWhole(n) =>
      || kind == "number"
      || (kind == "integer" && (format == "int64" ==> -0x8000_0000_0000_0000 <= n < 0x8000_0000_0000_0000)
          && (format == "int32" ==> -0x8000_0000 <= n < 0x8000_0000))
    case JFraction(precision) =>
      kind == "number" && (format == "float" ==> precision.Single?) && (format == "double" ==> !precision.Beyond?)
    case JBool => kind == "boolean"
    case JObject(_) => kind == "object"
    case _ => false
  }

  /**
   Conformance under a set of definitions, the annotations of a schema aside: a reference is what it
   names, and properties are those of the schema's map. A definition is never itself a reference.
   */
  ghost predicate Admits(defs: map<string, Schema>, shape: Shape, j: Json)
    decreases j, if shape.Ref? then 1 else 0
  {
    match shape
    case Anything => true
    case Plain(kind, format) => PlainAdmits(kind, format, j)
    case Ref(name) => name in defs && !defs[name].shape.Ref? && Admits(defs, defs[name].shape, j)
    case List(items) => j.JList? && forall i :: 0 <= i < |j.items| ==> Admits(defs, items.shape, j.items[i])
    case Dict(values) => j.JObject? && forall i :: 0 <= i < |j.members| ==> Admits(defs, values.shape, j.members[i].value)
    case Record(props, required) =>
      && j.JObject?
      && (forall n :: n in required ==> HasMember(j.members, n))
      && forall i :: 0 <= i < |j.members| && Lookup(props, j.members[i].name).Some? ==>
           Admits(defs, Lookup(props, j.members[i].name).value.shape, j.members[i].value)
  }

  // ----- what a type asks for ------------------------------------------------------

  /** A value a client that goes by the type would send: in full, and nothing of another kind. */
  ghost predicate Suits(env: Env, t: Type, r: nat, j: Json)
    requires WellFormed(env) && FitsType(env, t, r)
    decreases j, 1, t
  {
    match t
    case Str => j.JText?
    case Integer => j.JWhole? && -0x8000_0000_0000_0000 <= j.n < 0x8000_0000_0000_0000
    case Byte => j.JWhole? && -0x8000_0000_0000_0000 <= j.n < 0x8000_0000_0000_0000
    case Number => j.JWhole? || (j.JFraction? && !j.precision.Beyond?)
    case Boolean => j.JBool?
    case RawMessage => true
    case Interface => true
    case Slice(elem) =>
      if elem.Byte? then j == JText(Base64)
      else j.JList? && forall i :: 0 <= i < |j.items| ==> Suits(env, elem, r, j.items[i])
    case Array(elem) => j.JList? && forall i :: 0 <= i < |j.items| ==> Suits(env, elem, r, j.items[i])
    case Map(value) => j.JObject? && forall i :: 0 <= i < |j.members| ==> Suits(env, value, r, j.members[i].value)
    case Time => j == JText(Timestamp)
    case Ptr(elem) => Suits(env, elem, r, j)
    case Other => j.JObject?
    case Struct(fields) => SuitsLeaves(env, FieldsLeaves(env, fields, r, 0), j)
    case Named(id) => SuitsLeaves(env, FieldsLeaves(env, env.decls[id], env.rank[id], 0), j)
  }

  /** Every mandatory field is there, and what is there suits the last field of its name. */
  ghost predicate SuitsLeaves(env: Env, leaves: seq<Leaf>, j: Json)
    requires WellFormed(env) && Fit(env, leaves)
    decreases j, 0
  {
    && j.JObject?
    && (forall k :: 0 <= k < |leaves| && leaves[k].mandatory ==> HasMember(j.members, leaves[k].name))
    && forall i, k :: 0 <= i < |j.members| && Prevails(leaves, k) && leaves[k].name == j.members[i].name ==>
         Suits(env, leaves[k].field.typ, leaves[k].rank, j.members[i].value)
  }

  // ----- a type's schema admits exactly what the type asks for -------------------------

  /** Every struct that has a definition has its own, and all it refers to are defined. */
  ghost predicate Resolves(env: Env, defs: map<string, Schema>)
    requires WellFormed(env)
  {
    forall id :: id in env.decls && id.name in defs ==>
      defs[id.name] == StructGen(env, id).schema && RefNames(defs[id.name]) <= defs.Keys
  }

  lemma {:induction false} LookupRefs(props: seq<Prop>, n: string)
    ensures Lookup(props, n).Some? ==> RefNames(Lookup(props, n).value) <= PropRefs(props)
  {
    if props != [] && props[0].name != n {
      LookupRefs(props[1..], n);
    }
  }

  lemma DressKeepsShape(s: Schema, f: Field)
    ensures Dress(s, f).shape == s.shape
  {}

  /** The schema of a type admits exactly the values that suit the type. */
  lemma {:induction false} SchemaAdmitsExactly(env: Env, defs: map<string, Schema>, t: Type, r: nat, j: Json)
    requires WellFormed(env) && FitsType(env, t, r) && Resolves(env, defs)
    requires RefNames(TypeGen(env, t, r).schema) <= defs.Keys
    ensures Admits(defs, TypeGen(env, t, r).schema.shape, j) <==> Suits(env, t, r, j)
    decreases j, 1, t
  {
    hide WellFormed, Resolves, FieldsGen, FieldsLeaves, FitsFields, PlainAdmits, SuitsLeaves;
    match t
    case Slice(elem) => if elem.Byte? { PlainTypeAdmits(env, defs, t, r, j); } else { ItemsAdmitExactly(env, defs, elem, r, j); }
    case Array(elem) => ItemsAdmitExactly(env, defs, elem, r, j);
    case Map(value) => ValuesAdmitExactly(env, defs, value, r, j);
    case Ptr(elem) => SchemaAdmitsExactly(env, defs, elem, r, j);
    case Struct(fields) => RecordAdmitsExactly(env, defs, fields, r, j);
    case Named(id) => NamedAdmitsExactly(env, defs, id, r, j);
    case _ => PlainTypeAdmits(env, defs, t, r, j);
  }

  /** Types whose schemas have nothing inside. */
  lemma PlainTypeAdmits(env: Env, defs: map<string, Schema>, t: Type, r: nat, j: Json)
    requires WellFormed(env) && FitsType(env, t, r)
    requires match t
             case Slice(elem) => elem.Byte?
             case Array(_) => false
             case Map(_) => false
             case Ptr(_) => false
             case Struct(_) => false
             case Named(_) => false
             case _ => true
    ensures Admits(defs, TypeGen(env, t, r).schema.shape, j) <==> Suits(env, t, r, j)
  {
    hide WellFormed, FitsFields, FieldsGen, FieldsLeaves, SuitsLeaves;
    match t
    case _ =>
  }

  lemma NamedAdmitsExactly(env: Env, defs: map<string, Schema>, id: TypeId, r: nat, j: Json)
    requires WellFormed(env) && id in env.decls && Resolves(env, defs) && id.name in defs
    ensures Admits(defs, TypeGen(env, Named(id), r).schema.shape, j) <==> Suits(env, Named(id), r, j)
    decreases j, 0, 1
  {
    NamedResolves(env, defs, id);
    RecordAdmitsExactly(env, defs, env.decls[id], env.rank[id], j);
    hide WellFormed, Resolves, FieldsGen, FieldsLeaves, FitsFields, SuitsLeaves;
    assert TypeGen(env, Named(id), r).schema.shape == Ref(id.name);
  }

  lemma NamedResolves(env: Env, defs: map<string, Schema>, id: TypeId)
    requires WellFormed(env) && Resolves(env, defs) && id in env.decls && id.name in defs
    ensures id in env.rank && FitsFields(env, env.decls[id], env.rank[id])
    ensures var b := FieldsGen(env, env.decls[id], env.rank[id], EMPTY);
            defs[id.name].shape == Record(b.props, b.required) && PropRefs(b.props) <= defs.Keys
  {
    assert RefNames(defs[id.name]) <= defs.Keys;
  }

  lemma ItemsAdmitExactly(env: Env, defs: map<string, Schema>, elem: Type, r: nat, j: Json)
    requires WellFormed(env) && FitsType(env, elem, r) && Resolves(env, defs)
    requires RefNames(TypeGen(env, elem, r).schema) <= defs.Keys
    ensures j.JList? ==> forall i :: 0 <= i < |j.items| ==>
              (Admits(defs, TypeGen(env, elem, r).schema.shape, j.items[i]) <==> Suits(env, elem, r, j.items[i]))
    decreases j, 0
  {
    if j.JList? {
      forall i | 0 <= i < |j.items|
        ensures Admits(defs, TypeGen(env, elem, r).schema.shape, j.items[i]) <==> Suits(env, elem, r, j.items[i])
      {
        SchemaAdmitsExactly(env, defs, elem, r, j.items[i]);
      }
    }
  }

  lemma ValuesAdmitExactly(env: Env, defs: map<string, Schema>, value: Type, r: nat, j: Json)
    requires WellFormed(env) && FitsType(env, value, r) && Resolves(env, defs)
    requires RefNames(TypeGen(env, value, r).schema) <= defs.Keys
    ensures j.JObject? ==> forall i :: 0 <= i < |j.members| ==>
              (Admits(defs, TypeGen(env, value, r).schema.shape, j.members[i].value) <==> Suits(env, value, r, j.members[i].value))
    decreases j, 0
  {
    if j.JObject? {
      forall i | 0 <= i < |j.members|
        ensures Admits(defs, TypeGen(env, value, r).schema.shape, j.members[i].value) <==> Suits(env, value, r, j.members[i].value)
      {
        SchemaAdmitsExactly(env, defs, value, r, j.members[i].value);
      }
    }
  }

  lemma RecordAdmitsExactly(env: Env, defs: map<string, Schema>, fields: seq<Field>, r: nat, j: Json)
    requires WellFormed(env) && FitsFields(env, fields, r) && Resolves(env, defs)
    requires PropRefs(FieldsGen(env, fields, r, EMPTY).props) <= defs.Keys
    ensures var b := FieldsGen(env, fields, r, EMPTY);
            Admits(defs, Record(b.props, b.required), j) <==> SuitsLeaves(env, FieldsLeaves(env, fields, r, 0), j)
    decreases j, 0, 0
  {
    hide WellFormed, Resolves, FieldsGen, FieldsLeaves, FitsFields;
    var b, leaves := FieldsGen(env, fields, r, EMPTY), FieldsLeaves(env, fields, r, 0);
    RequiredExactly(env, fields, r);
    if j.JObject? {
      forall i | 0 <= i < |j.members|
        ensures (Lookup(b.props, j.members[i].name).Some? ==>
                   Admits(defs, Lookup(b.props, j.members[i].name).value.shape, j.members[i].value))
           <==> forall k :: Prevails(leaves, k) && leaves[k].name == j.members[i].name ==>
                  Suits(env, leaves[k].field.typ, leaves[k].rank, j.members[i].value)
      {
        MemberAdmitsExactly(env, defs, fields, r, j.members[i]);
      }
    }
  }

  lemma MemberAdmitsExactly(env: Env, defs: map<string, Schema>, fields: seq<Field>, r: nat, m: Member)
    requires WellFormed(env) && FitsFields(env, fields, r) && Resolves(env, defs)
    requires PropRefs(FieldsGen(env, fields, r, EMPTY).props) <= defs.Keys
    ensures var props, leaves := FieldsGen(env, fields, r, EMPTY).props, FieldsLeaves(env, fields, r, 0);
            (Lookup(props, m.name).Some? ==> Admits(defs, Lookup(props, m.name).value.shape, m.value))
            <==> forall k :: Prevails(leaves, k) && leaves[k].name == m.name ==>
                   Suits(env, leaves[k].field.typ, leaves[k].rank, m.value)
    decreases m.value, 2
  {
    hide WellFormed, Resolves, FieldsGen, FieldsLeaves, FitsFields, Admits, Suits;
    var props, leaves := FieldsGen(env, fields, r, EMPTY).props, FieldsLeaves(env, fields, r, 0);
    var k := TheLastFieldPrevails(env, fields, r, m.name);
    LookupRefs(props, m.name);
    if Lookup(props, m.name).Some? {
      var leaf := leaves[k];
      DressKeepsShape(TypeGen(env, leaf.field.typ, leaf.rank).schema, leaf.field);
      DressedIsTidy(TypeGen(env, leaf.field.typ, leaf.rank).schema, leaf.field);
      SchemaAdmitsExactly(env, defs, leaf.field.typ, leaf.rank, m.value);
    }
  }

  // ----- of one kind only ------------------------------------------------------------

  datatype Kind = NullKind | BoolKind | TextKind | NumberKind | ListKind | ObjectKind

  function KindOf(j: Json): Kind {
    match j
    case JNull => NullKind
    case JBool => BoolKind
    case JText(_) => TextKind
    case JWhole(_) => NumberKind
    case JFraction(_) => NumberKind
    case JList(_) => ListKind
    case JObject(_) => ObjectKind
  }

  /** A schema for anything is meant. */
  predicate Open(t: Type) {
    t.RawMessage? || t.Interface? || (t.Ptr? && Open(t.elem))
  }

  function KindFor(t: Type): Kind {
    match t
    case Str => TextKind
    case Time => TextKind
    case Integer => NumberKind
    case Byte => NumberKind
    case Number => NumberKind
    case Boolean => BoolKind
    case Slice(elem) => if elem.Byte? then TextKind else ListKind
    case Array(_) => ListKind
    case Ptr(elem) => KindFor(elem)
    case _ => ObjectKind
  }

  lemma {:induction false} SuitsOneKind(env: Env, t: Type, r: nat, j: Json)
    requires WellFormed(env) && FitsType(env, t, r) && Suits(env, t, r, j)
    ensures Open(t) || KindOf(j) == KindFor(t)
    decreases t
  {
    hide WellFormed, FitsFields, FieldsLeaves;
    match t
    case Ptr(elem) => SuitsOneKind(env, elem, r, j);
    case _ =>
  }

  /** Unless anything goes, a value of another kind than the type's is refused, null among them. */
  lemma OtherKindsAreRefused(env: Env, defs: map<string, Schema>, t: Type, r: nat, j: Json)
    requires WellFormed(env) && FitsType(env, t, r) && Resolves(env, defs)
    requires RefNames(TypeGen(env, t, r).schema) <= defs.Keys
    requires !Open(t) && KindOf(j) != KindFor(t)
    ensures !Admits(defs, TypeGen(env, t, r).schema.shape, j)
  {
    hide WellFormed, Resolves, Admits;
    SchemaAdmitsExactly(env, defs, t, r, j);
    if Suits(env, t, r, j) {
      SuitsOneKind(env, t, r, j);
    }
  }

  // ----- what encoding/json writes ------------------------------------------------------

  /** Nil slices, maps and pointers are written as null, and unsigned numbers go beyond signed ones. */
  ghost predicate Writes(env: Env, t: Type, r: nat, j: Json)
    requires WellFormed(env) && FitsType(env, t, r)
    decreases j, 1, t
  {
    match t
    case Str => j.JText?
    case Integer => j.JWhole? && -0x8000_0000_0000_0000 <= j.n < 0x1_0000_0000_0000_0000
    case Byte => j.JWhole? && 0 <= j.n < 256
    case Number => j.JWhole? || (j.JFraction? && !j.precision.Beyond?)
    case Boolean => j.JBool?
    case RawMessage => true
    case Interface => true
    case Slice(elem) =>
      || j.JNull?
      || (if elem.Byte? then j == JText(Base64)
          else j.JList? && forall i :: 0 <= i < |j.items| ==> Writes(env, elem, r, j.items[i]))
    case Array(elem) => j.JList? && forall i :: 0 <= i < |j.items| ==> Writes(env, elem, r, j.items[i])
    case Map(value) =>
      j.JNull? || (j.JObject? && forall i :: 0 <= i < |j.members| ==> Writes(env, value, r, j.members[i].value))
    case Time => j == JText(Timestamp)
    case Ptr(elem) => j.JNull? || Writes(env, elem, r, j)
    case Other => false
    case Struct(fields) => WritesLeaves(env, FieldsLeaves(env, fields, r, 0), j)
    case Named(id) => WritesLeaves(env, FieldsLeaves(env, env.decls[id], env.rank[id], 0), j)
  }

  /** One member for every field that dominates its name, some of which may be left out when empty. */
  ghost predicate WritesLeaves(env: Env, leaves: seq<Leaf>, j: Json)
    requires WellFormed(env) && Fit(env, leaves)
    decreases j, 0
  {
    && j.JObject?
    && (forall i :: 0 <= i < |j.members| ==> exists k :: Emits(leaves, j.members[i].name, k))
    && (forall i, k :: 0 <= i < |j.members| && Emits(leaves, j.members[i].name, k) ==>
          Writes(env, leaves[k].field.typ, leaves[k].rank, j.members[i].value))
    && forall k :: Dominates(leaves, k) && !leaves[k].field.omitempty ==> HasMember(j.members, leaves[k].name)
  }

  /**
   Nothing in the value is nil where the documentation promises something, no number is too large,
   no mandatory field was left out, and where the last field of a name is not the one written, what
   is written happens to suit it.
   */
  ghost predicate InFull(env: Env, t: Type, r: nat, j: Json)
    requires WellFormed(env) && FitsType(env, t, r)
    decreases j, 1, t
  {
    match t
    case Integer => j.JWhole? ==> j.n < 0x8000_0000_0000_0000
    case Slice(elem) =>
      !j.JNull? && (j.JList? && !elem.Byte? ==> forall i :: 0 <= i < |j.items| ==> InFull(env, elem, r, j.items[i]))
    case Array(elem) => j.JList? ==> forall i :: 0 <= i < |j.items| ==> InFull(env, elem, r, j.items[i])
    case Map(value) =>
      !j.JNull? && (j.JObject? ==> forall i :: 0 <= i < |j.members| ==> InFull(env, value, r, j.members[i].value))
    case Ptr(elem) => if j.JNull? then Open(elem) else InFull(env, elem, r, j)
    case Struct(fields) => LeavesInFull(env, FieldsLeaves(env, fields, r, 0), j)
    case Named(id) => LeavesInFull(env, FieldsLeaves(env, env.decls[id], env.rank[id], 0), j)
    case _ => true
  }

  ghost predicate LeavesInFull(env: Env, leaves: seq<Leaf>, j: Json)
    requires WellFormed(env) && Fit(env, leaves)
    decreases j, 0
  {
    j.JObject? ==>
      && (forall k :: 0 <= k < |leaves| && leaves[k].mandatory ==> HasMember(j.members, leaves[k].name))
      && forall i, k :: 0 <= i < |j.members| && Prevails(leaves, k) && leaves[k].name == j.members[i].name ==>
           if Emits(leaves, j.members[i].name, k) then InFull(env, leaves[k].field.typ, leaves[k].rank, j.members[i].value)
           else Suits(env, leaves[k].field.typ, leaves[k].rank, j.members[i].value)
  }

  lemma {:induction false} NullSuits(env: Env, t: Type, r: nat)
    requires WellFormed(env) && FitsType(env, t, r)
    ensures Suits(env, t, r, JNull) <==> Open(t)
    decreases t
  {
    hide WellFormed, FitsFields, FieldsLeaves;
    match t
    case Ptr(elem) => NullSuits(env, elem, r);
    case _ =>
  }

  /** What is written for a value suits its type exactly when it is written in full. */
  lemma {:induction false} WrittenSuitsExactlyWhen(env: Env, t: Type, r: nat, j: Json)
    requires WellFormed(env) && FitsType(env, t, r) && Writes(env, t, r, j)
    ensures Suits(env, t, r, j) <==> InFull(env, t, r, j)
    decreases j, 1, t
  {
    hide WellFormed, FitsFields, FieldsLeaves, WritesLeaves, SuitsLeaves, LeavesInFull;
    match t
    case Slice(elem) => if j.JList? { ItemsSuit(env, elem, r, j); }
    case Array(elem) => ItemsSuit(env, elem, r, j);
    case Map(value) => if j.JObject? { ValuesSuit(env, value, r, j); }
    case Ptr(elem) => if j.JNull? { NullSuits(env, elem, r); } else { WrittenSuitsExactlyWhen(env, elem, r, j); }
    case Struct(fields) => LeavesSuit(env, FieldsLeaves(env, fields, r, 0), j);
    case Named(id) =>
      DeclarationFits(env, id);
      LeavesSuit(env, FieldsLeaves(env, env.decls[id], env.rank[id], 0), j);
    case _ =>
  }

  lemma DeclarationFits(env: Env, id: TypeId)
    requires WellFormed(env) && id in env.decls
    ensures id in env.rank && FitsFields(env, env.decls[id], env.rank[id])
  {}

  lemma ItemsSuit(env: Env, elem: Type, r: nat, j: Json)
    requires WellFormed(env) && FitsType(env, elem, r)
    requires j.JList? && forall i :: 0 <= i < |j.items| ==> Writes(env, elem, r, j.items[i])
    ensures forall i :: 0 <= i < |j.items| ==> (Suits(env, elem, r, j.items[i]) <==> InFull(env, elem, r, j.items[i]))
    decreases j, 0
  {
    forall i | 0 <= i < |j.items| ensures Suits(env, elem, r, j.items[i]) <==> InFull(env, elem, r, j.items[i]) {
      WrittenSuitsExactlyWhen(env, elem, r, j.items[i]);
    }
  }

  lemma ValuesSuit(env: Env, value: Type, r: nat, j: Json)
    requires WellFormed(env) && FitsType(env, value, r)
    requires j.JObject? && forall i :: 0 <= i < |j.members| ==> Writes(env, value, r, j.members[i].value)
    ensures forall i :: 0 <= i < |j.members| ==>
              (Suits(env, value, r, j.members[i].value) <==> InFull(env, value, r, j.members[i].value))
    decreases j, 0
  {
    forall i | 0 <= i < |j.members|
      ensures Suits(env, value, r, j.members[i].value) <==> InFull(env, value, r, j.members[i].value)
    {
      WrittenSuitsExactlyWhen(env, value, r, j.members[i].value);
    }
  }

  lemma LeavesSuit(env: Env, leaves: seq<Leaf>, j: Json)
    requires WellFormed(env) && Fit(env, leaves) && WritesLeaves(env, leaves, j)
    ensures SuitsLeaves(env, leaves, j) <==> LeavesInFull(env, leaves, j)
    decreases j, 0
  {
    hide WellFormed, FitsType, Dominates, HasMember;
    forall i, k | 0 <= i < |j.members| && 0 <= k < |leaves| && Emits(leaves, j.members[i].name, k)
      ensures Suits(env, leaves[k].field.typ, leaves[k].rank, j.members[i].value)
         <==> InFull(env, leaves[k].field.typ, leaves[k].rank, j.members[i].value)
    {
      WrittenSuitsExactlyWhen(env, leaves[k].field.typ, leaves[k].rank, j.members[i].value);
    }
  }

  /** An instance: a nil slice is written as null, which its schema refuses. */
  lemma NilSliceIsRefused(env: Env, defs: map<string, Schema>, elem: Type, r: nat)
    requires WellFormed(env) && FitsType(env, Slice(elem), r) && Resolves(env, defs)
    requires RefNames(TypeGen(env, Slice(elem), r).schema) <= defs.Keys
    ensures Writes(env, Slice(elem), r, JNull) && !Admits(defs, TypeGen(env, Slice(elem), r).schema.shape, JNull)
  {
    hide WellFormed, Resolves, TypeGen, Admits;
    OtherKindsAreRefused(env, defs, Slice(elem), r, JNull);
  }

  // ----- the emitted definitions ------------------------------------------------------------

  /** The type is the struct, whatever pointers lead to it. */
  predicate Denotes(t: Type, id: TypeId) {
    match t
    case Ptr(elem) => Denotes(elem, id)
    case Named(other) => other == id
    case _ => false
  }

  /** No model is registered under the name of a struct it is not. */
  ghost predicate Unshadowed(env: Env, models: Models) {
    forall id, n :: id in env.decls && n in models && id.name == n ==> Denotes(models[n], id)
  }

  lemma {:induction false} DenotesGen(env: Env, t: Type, id: TypeId)
    requires WellFormed(env) && FitsType(env, t, env.top) && id in env.decls && Denotes(t, id)
    ensures ModelGen(env, t) == StructGen(env, id)
    decreases t
  {
    if t.Ptr? {
      DenotesGen(env, t.elem, id);
    }
  }

  lemma DefinitionsResolve(env: Env, models: Models, c: map<string, TypeId>, defs: map<string, Schema>)
    requires AllFit(env, models) && Result(env, models, c, defs) && UniqueNames(env) && Unshadowed(env, models)
    ensures Resolves(env, defs)
  {
    hide WellFormed, StructGen, ModelGen, RefNames, Least;
    forall id | id in env.decls && id.name in defs
      ensures defs[id.name] == StructGen(env, id).schema && RefNames(defs[id.name]) <= defs.Keys
    {
      EveryReferenceResolves(env, models, c, defs, id.name);
      if id.name in models {
        assert ModelDone(env, models, c, defs, id.name);
        DenotesGen(env, models[id.name], id);
      } else {
        assert StructDone(env, c, defs, id.name);
        assert c[id.name] == id;
      }
    }
  }

  lemma {:induction false} ModelAdmitsExactly(env: Env, defs: map<string, Schema>, t: Type, j: Json)
    requires WellFormed(env) && FitsType(env, t, env.top) && Resolves(env, defs)
    requires RefNames(ModelGen(env, t).schema) <= defs.Keys
    ensures Admits(defs, ModelGen(env, t).schema.shape, j) <==> Suits(env, t, env.top, j)
    decreases t
  {
    hide WellFormed, Resolves, FieldsGen, FieldsLeaves, FitsFields;
    match t
    case Ptr(elem) => ModelAdmitsExactly(env, defs, elem, j);
    case Named(id) => StructAdmitsExactly(env, defs, id, j);
    case _ => SchemaAdmitsExactly(env, defs, t, env.top, j);
  }

  lemma StructAdmitsExactly(env: Env, defs: map<string, Schema>, id: TypeId, j: Json)
    requires WellFormed(env) && id in env.decls && Resolves(env, defs)
    requires RefNames(StructGen(env, id).schema) <= defs.Keys
    ensures Admits(defs, StructGen(env, id).schema.shape, j) <==> Suits(env, Named(id), env.top, j)
  {
    assert FitsFields(env, env.decls[id], env.rank[id]);
    RecordAdmitsExactly(env, defs, env.decls[id], env.rank[id], j);
    hide WellFormed, Resolves, FieldsGen, FieldsLeaves, FitsFields;
  }

  /**
   Every definition admits exactly the values that suit the type it is the definition of. With
   WrittenSuitsExactlyWhen: what encoding/json writes for such a type conforms to the definition
   exactly when it is written in full.
   */
  lemma DefinitionAdmitsExactly(env: Env, models: Models, c: map<string, TypeId>, defs: map<string, Schema>, n: string, j: Json)
    requires AllFit(env, models) && Result(env, models, c, defs) && UniqueNames(env) && Unshadowed(env, models) && n in defs
    ensures n in models ==> (Admits(defs, defs[n].shape, j) <==> Suits(env, models[n], env.top, j))
    ensures n !in models ==> n in c && c[n] in env.decls && (Admits(defs, defs[n].shape, j) <==> Suits(env, Named(c[n]), env.top, j))
  {
    hide WellFormed, StructGen, ModelGen, RefNames, Least, Admits, Suits;
    DefinitionsResolve(env, models, c, defs);
    EveryReferenceResolves(env, models, c, defs, n);
    if n in models {
      assert ModelDone(env, models, c, defs, n);
      ModelAdmitsExactly(env, defs, models[n], j);
    } else {
      assert StructDone(env, c, defs, n);
      StructAdmitsExactly(env, defs, c[n], j);
    }
  }
}
