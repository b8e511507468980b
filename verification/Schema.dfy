/**
 API schemas for Go types. A named struct appears inside another schema as a reference only,
 so a type is a tree whose named leaves point into an environment, which may well be cyclic;
 only embedding, which is flattened on the spot, has to be well-founded.

 Generation is described as the schema together with the named structs met on the way, in
 order. What every generated schema satisfies, that it mentions no struct that was not met,
 puts nothing beside a reference and requires only properties it has, follows by induction on
 the rank of embedding and the type.
 */
module Schemas {
  import opened Prelude

  datatype TypeId = TypeId(pkg: string, name: string)

  datatype Type =
    | Str | Integer | Byte | Number | Boolean
    | Slice(elem: Type) | Array(elem: Type) | RawMessage | Map(value: Type)
    | Time | Struct(fields: seq<Field>) | Named(id: TypeId)
    | Interface | Ptr(elem: Type) | Other

  /** The tags that describe a field; an absent one is empty. */
  datatype Tags = Tags(
    format: string, enums: string, description: string, doc: string, example: string, byDefault: string, binding: string)

  datatype Field = Field(
    name: string, exported: bool, embedded: bool, jsonName: string, omitempty: bool,
    mustBind: bool, tags: Tags, typ: Type)

  /** What the tags add to a schema; values and validation rules are kept as they are written. */
  datatype Details = Details(
    format: Option<string>, enums: seq<string>, description: string,
    example: Option<string>, byDefault: Option<string>, rules: string)

  datatype Schema = Schema(shape: Shape, details: Option<Details>)

  datatype Shape =
    | Anything
    | Plain(kind: string, format: string)
    | Ref(name: string)
    | List(items: Schema)
    | Dict(values: Schema)
    | Record(props: seq<Prop>, required: seq<string>)

  datatype Prop = Prop(name: string, schema: Schema)

  /** Every named struct with its fields, how deep its embeddings go, and a bound on that. */
  datatype Env = Env(decls: map<TypeId, seq<Field>>, rank: map<TypeId, nat>, top: nat)

  // ----- well-founded embedding ---------------------------------------------

  predicate IsStruct(t: Type) {
    match t
    case Ptr(elem) => IsStruct(elem)
    case Struct(_) => true
    case Named(_) => true
    case _ => false
  }

  predicate Skipped(f: Field) {
    (!f.exported && !f.embedded) || f.jsonName == "-"
  }

  /** The field's own fields are promoted. */
  predicate Flattens(f: Field) {
    !Skipped(f) && f.embedded && f.jsonName == "" && IsStruct(f.typ)
  }

  predicate EmbedFits(env: Env, t: Type, r: nat) {
    match t
    case Ptr(elem) => EmbedFits(env, elem, r)
    case Named(id) => id in env.decls && id in env.rank && env.rank[id] < r
    case _ => true
  }

  /** Every name is declared and every embedding leads to a rank below r. */
  predicate FitsType(env: Env, t: Type, r: nat)
    decreases t
  {
    match t
    case Slice(elem) => FitsType(env, elem, r)
    case Array(elem) => FitsType(env, elem, r)
    case Map(value) => FitsType(env, value, r)
    case Ptr(elem) => FitsType(env, elem, r)
    case Struct(fields) => FitsFields(env, fields, r)
    case Named(id) => id in env.decls
    case _ => true
  }

  predicate FitsFields(env: Env, fields: seq<Field>, r: nat)
    decreases fields
  {
    forall i :: 0 <= i < |fields| ==> FitsField(env, fields[i], r)
  }

  predicate FitsField(env: Env, f: Field, r: nat)
    decreases f
  {
    FitsType(env, f.typ, r) && (Flattens(f) ==> EmbedFits(env, f.typ, r))
  }

  ghost predicate WellFormed(env: Env) {
    forall id :: id in env.decls ==>
      id in env.rank && env.rank[id] < env.top && FitsFields(env, env.decls[id], env.rank[id])
  }

  // ----- the schema of a type, and the named structs met on the way ----------

  datatype Gen = Gen(schema: Schema, refs: seq<TypeId>)

  datatype Built = Built(props: seq<Prop>, required: seq<string>, refs: seq<TypeId>)

  const EMPTY := Built([], [], [])

  function Bare(shape: Shape): Schema {
    Schema(shape, None)
  }

  /** Setting a key of the properties map. */
  function Put(props: seq<Prop>, name: string, schema: Schema): seq<Prop> {
    if props == [] then [Prop(name, schema)]
    else if props[0].name == name then [Prop(name, schema)] + props[1..]
    else [props[0]] + Put(props[1..], name, schema)
  }

  function PropName(f: Field): string {
    if f.jsonName != "" then f.jsonName else f.name
  }

  function NonEmpty(tag: string): Option<string> {
    if tag == "" then None else Some(tag)
  }

  /** strings.Split(s, ","): never empty. */
  function Commas(s: string): (parts: seq<string>)
    ensures |parts| >= 1
  {
    if s == "" then [""]
    else
      var parts := Commas(s[..|s| - 1]);
      if s[|s| - 1] == ',' then parts + [""]
      else parts[|parts| - 1 := parts[|parts| - 1] + [s[|s| - 1]]]
  }

  /** The description tag, else the doc tag, else one made up from the name. */
  function Description(tags: Tags, propName: string): string {
    if tags.description != "" then tags.description
    else if tags.doc != "" then tags.doc
    else "Field " + propName
  }

  function DetailsOf(f: Field): Details {
    Details(NonEmpty(f.tags.format), if f.tags.enums == "" then [] else Commas(f.tags.enums),
            Description(f.tags, PropName(f)), NonEmpty(f.tags.example), NonEmpty(f.tags.byDefault), f.tags.binding)
  }

  /** A reference carries no siblings; anything else gets what the tags say. */
  function Dress(schema: Schema, f: Field): Schema {
    if schema.shape.Ref? then schema else schema.(details := Some(DetailsOf(f)))
  }

  predicate MustAppear(f: Field) {
    f.mustBind || !f.omitempty
  }

  ghost function TypeGen(env: Env, t: Type, r: nat): Gen
    requires WellFormed(env) && FitsType(env, t, r)
    decreases r, t
  {
    match t
    case Str => Gen(Bare(Plain("string", "")), [])
    case Integer => Gen(Bare(Plain("integer", "int64")), [])
    case Byte => Gen(Bare(Plain("integer", "int64")), [])
    case Number => Gen(Bare(Plain("number", "double")), [])
    case Boolean => Gen(Bare(Plain("boolean", "")), [])
    case RawMessage => Gen(Bare(Anything), [])
    case Slice(elem) =>
      if elem.Byte? then Gen(Bare(Plain("string", "byte")), [])
      else var g := TypeGen(env, elem, r); Gen(Bare(List(g.schema)), g.refs)
    case Array(elem) => var g := TypeGen(env, elem, r); Gen(Bare(List(g.schema)), g.refs)
    case Map(value) => var g := TypeGen(env, value, r); Gen(Bare(Dict(g.schema)), g.refs)
    case Time => Gen(Bare(Plain("string", "date-time")), [])
    case Struct(fields) => var b := FieldsGen(env, fields, r, EMPTY); Gen(Bare(Record(b.props, b.required)), b.refs)
    case Named(id) => Gen(Bare(Ref(id.name)), [id])
    case Interface => Gen(Bare(Anything), [])
    case Ptr(elem) => TypeGen(env, elem, r)
    case Other => Gen(Bare(Plain("object", "")), [])
  }

  ghost function FieldsGen(env: Env, fields: seq<Field>, r: nat, b: Built): Built
    requires WellFormed(env) && FitsFields(env, fields, r)
    decreases r, fields
  {
    if fields == [] then b
    else
      var n := |fields| - 1;
      FieldGen(env, fields[n], r, FieldsGen(env, fields[..n], r, b))
  }

  ghost function FieldGen(env: Env, f: Field, r: nat, b: Built): Built
    requires WellFormed(env) && FitsField(env, f, r)
    decreases r, f
  {
    if Skipped(f) then b
    else if Flattens(f) then EmbedGen(env, f.typ, r, b)
    else
      var g := TypeGen(env, f.typ, r);
      Built(Put(b.props, PropName(f), Dress(g.schema, f)),
            if MustAppear(f) then b.required + [PropName(f)] else b.required,
            b.refs + g.refs)
  }

  ghost function EmbedGen(env: Env, t: Type, r: nat, b: Built): Built
    requires WellFormed(env) && IsStruct(t) && FitsType(env, t, r) && EmbedFits(env, t, r)
    decreases r, t
  {
    match t
    case Ptr(elem) => EmbedGen(env, elem, r, b)
    case Struct(fields) => FieldsGen(env, fields, r, b)
    case Named(id) => FieldsGen(env, env.decls[id], env.rank[id], b)
  }

  /** The expanded schema of a declared struct. */
  ghost function StructGen(env: Env, id: TypeId): Gen
    requires WellFormed(env) && id in env.decls
  {
    var b := FieldsGen(env, env.decls[id], env.rank[id], EMPTY);
    Gen(Bare(Record(b.props, b.required)), b.refs)
  }

  /** A registered model is expanded even when it is a named struct. */
  ghost function ModelGen(env: Env, t: Type): Gen
    requires WellFormed(env) && FitsType(env, t, env.top)
    decreases t
  {
    match t
    case Ptr(elem) => ModelGen(env, elem)
    case Named(id) => StructGen(env, id)
    case _ => TypeGen(env, t, env.top)
  }

  // ----- what every generated schema satisfies -------------------------------

  function RefNames(s: Schema): set<string>
    decreases s
  {
    match s.shape
    case Ref(name) => {name}
    case List(items) => RefNames(items)
    case Dict(values) => RefNames(values)
    case Record(props, _) => PropRefs(props)
    case _ => {}
  }

  function PropRefs(props: seq<Prop>): set<string>
    decreases props
  {
    if props == [] then {} else RefNames(props[0].schema) + PropRefs(props[1..])
  }

  /**
   Nowhere does a reference carry anything beside it, whatever carries details has a description,
   and what is required is a property.
   */
  predicate Tidy(s: Schema)
    decreases s
  {
    (s.details.Some? ==> s.details.value.description != "") &&
    match s.shape
    case Ref(_) => s.details.None?
    case List(items) => Tidy(items)
    case Dict(values) => Tidy(values)
    case Record(props, required) => TidyProps(props) && forall n :: n in required ==> HasProp(props, n)
    case _ => true
  }

  predicate TidyProps(props: seq<Prop>)
    decreases props
  {
    props == [] || (Tidy(props[0].schema) && TidyProps(props[1..]))
  }

  predicate HasProp(props: seq<Prop>, n: string) {
    exists i :: 0 <= i < |props| && props[i].name == n
  }

  function Names(refs: seq<TypeId>): set<string> {
    set i | 0 <= i < |refs| :: refs[i].name
  }

  ghost predicate Known(env: Env, refs: seq<TypeId>) {
    forall i :: 0 <= i < |refs| ==> refs[i] in env.decls
  }

  ghost predicate GoodGen(env: Env, g: Gen) {
    RefNames(g.schema) <= Names(g.refs) && Known(env, g.refs) && Tidy(g.schema)
  }

  ghost predicate GoodBuilt(env: Env, b: Built) {
    && PropRefs(b.props) <= Names(b.refs) && Known(env, b.refs) && TidyProps(b.props)
    && forall n :: n in b.required ==> HasProp(b.props, n)
  }

  lemma {:induction false} PutRefs(props: seq<Prop>, name: string, s: Schema)
    ensures PropRefs(Put(props, name, s)) <= PropRefs(props) + RefNames(s)
    ensures TidyProps(props) && Tidy(s) ==> TidyProps(Put(props, name, s))
  {
    if props != [] && props[0].name != name {
      PutRefs(props[1..], name, s);
      assert ([props[0]] + Put(props[1..], name, s))[1..] == Put(props[1..], name, s);
    } else if props != [] {
      assert ([Prop(name, s)] + props[1..])[1..] == props[1..];
    }
  }

  lemma {:induction false} PutHas(props: seq<Prop>, name: string, s: Schema, n: string)
    ensures HasProp(Put(props, name, s), n) <==> HasProp(props, n) || n == name
  {
    if props == [] {
      assert Put(props, name, s)[0].name == name;
    } else {
      HasFront(props, n);
      if props[0].name == name {
        HasFront([Prop(name, s)] + props[1..], n);
      } else {
        PutHas(props[1..], name, s, n);
        HasFront([props[0]] + Put(props[1..], name, s), n);
      }
    }
  }

  lemma HasFront(props: seq<Prop>, n: string)
    requires props != []
    ensures HasProp(props, n) <==> props[0].name == n || HasProp(props[1..], n)
  {
    if HasProp(props, n) && props[0].name != n {
      var i :| 0 <= i < |props| && props[i].name == n;
      assert props[1..][i - 1].name == n;
    }
    if HasProp(props[1..], n) {
      var i :| 0 <= i < |props[1..]| && props[1..][i].name == n;
      assert props[i + 1].name == n;
    }
  }

  lemma NamesConcat(a: seq<TypeId>, b: seq<TypeId>)
    ensures Names(a + b) == Names(a) + Names(b)
  {
    forall n | n in Names(a) + Names(b) ensures n in Names(a + b) {
      if n in Names(a) {
        var i :| 0 <= i < |a| && a[i].name == n;
        assert (a + b)[i].name == n;
      } else {
        var i :| 0 <= i < |b| && b[i].name == n;
        assert (a + b)[|a| + i].name == n;
      }
    }
  }

  lemma {:induction false} TypeGenIsGood(env: Env, t: Type, r: nat)
    requires WellFormed(env) && FitsType(env, t, r)
    ensures GoodGen(env, TypeGen(env, t, r))
    decreases r, t
  {
    hide WellFormed, FitsFields;
    match t
    case Slice(elem) => if !elem.Byte? { TypeGenIsGood(env, elem, r); }
    case Array(elem) => TypeGenIsGood(env, elem, r);
    case Map(value) => TypeGenIsGood(env, value, r);
    case Struct(fields) =>
      EmptyIsGood(env);
      FieldsGenIsGood(env, fields, r, EMPTY);
    case Named(id) => assert [id][0].name == id.name;
    case Ptr(elem) => TypeGenIsGood(env, elem, r);
    case _ =>
  }

  lemma EmptyIsGood(env: Env)
    ensures GoodBuilt(env, EMPTY)
  {}

  lemma {:induction false} FieldsGenIsGood(env: Env, fields: seq<Field>, r: nat, b: Built)
    requires WellFormed(env) && FitsFields(env, fields, r) && GoodBuilt(env, b)
    ensures GoodBuilt(env, FieldsGen(env, fields, r, b))
    decreases r, fields
  {
    hide WellFormed, GoodBuilt;
    if fields != [] {
      var n := |fields| - 1;
      FieldsGenIsGood(env, fields[..n], r, b);
      FieldGenIsGood(env, fields[n], r, FieldsGen(env, fields[..n], r, b));
    }
  }

  lemma {:induction false} FieldGenIsGood(env: Env, f: Field, r: nat, b: Built)
    requires WellFormed(env) && FitsField(env, f, r) && GoodBuilt(env, b)
    ensures GoodBuilt(env, FieldGen(env, f, r, b))
    decreases r, f
  {
    hide WellFormed, GoodBuilt, GoodGen;
    if Skipped(f) {
    } else if Flattens(f) {
      EmbedGenIsGood(env, f.typ, r, b);
    } else {
      TypeGenIsGood(env, f.typ, r);
      AddingIsGood(env, f, b, TypeGen(env, f.typ, r));
    }
  }

  lemma AddingIsGood(env: Env, f: Field, b: Built, g: Gen)
    requires GoodBuilt(env, b) && GoodGen(env, g)
    ensures GoodBuilt(env, Built(Put(b.props, PropName(f), Dress(g.schema, f)),
                                 if MustAppear(f) then b.required + [PropName(f)] else b.required, b.refs + g.refs))
  {
    var s := Dress(g.schema, f);
    DressedIsTidy(g.schema, f);
    PutRefs(b.props, PropName(f), s);
    NamesConcat(b.refs, g.refs);
    forall n ensures HasProp(Put(b.props, PropName(f), s), n) <==> HasProp(b.props, n) || n == PropName(f) {
      PutHas(b.props, PropName(f), s, n);
    }
    hide RefNames, Tidy, TidyProps, PropRefs, HasProp, Put, Dress, Names;
  }

  lemma DescribedSomehow(tags: Tags, propName: string)
    ensures Description(tags, propName) != ""
  {
    assert ("Field " + propName)[0] == 'F';
  }

  lemma DressedIsTidy(s: Schema, f: Field)
    ensures RefNames(Dress(s, f)) == RefNames(s)
    ensures Tidy(s) ==> Tidy(Dress(s, f))
  {
    DescribedSomehow(f.tags, PropName(f));
  }

  lemma {:induction false} EmbedGenIsGood(env: Env, t: Type, r: nat, b: Built)
    requires WellFormed(env) && IsStruct(t) && FitsType(env, t, r) && EmbedFits(env, t, r) && GoodBuilt(env, b)
    ensures GoodBuilt(env, EmbedGen(env, t, r, b))
    decreases r, t
  {
    hide GoodBuilt;
    match t
    case Ptr(elem) => EmbedGenIsGood(env, elem, r, b);
    case Struct(fields) => FieldsGenIsGood(env, fields, r, b);
    case Named(id) => FieldsGenIsGood(env, env.decls[id], env.rank[id], b);
  }

  lemma StructGenIsGood(env: Env, id: TypeId)
    requires WellFormed(env) && id in env.decls
    ensures GoodGen(env, StructGen(env, id))
  {
    EmptyIsGood(env);
    FieldsGenIsGood(env, env.decls[id], env.rank[id], EMPTY);
  }

  lemma {:induction false} ModelGenIsGood(env: Env, t: Type)
    requires WellFormed(env) && FitsType(env, t, env.top)
    ensures GoodGen(env, ModelGen(env, t))
    decreases t
  {
    hide GoodGen, WellFormed;
    match t
    case Ptr(elem) => ModelGenIsGood(env, elem);
    case Named(id) => StructGenIsGood(env, id);
    case _ => TypeGenIsGood(env, t, env.top);
  }
}
