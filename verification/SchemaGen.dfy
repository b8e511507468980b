/**
 Emitting a definition for every registered model and for every named struct reachable from
 them: a worklist over a type graph that may be cyclic, in whatever order maps are iterated.
 */
module SchemaGens {
  import opened Prelude
  import opened Schemas

  type Models = map<string, Type>

  // ----- collecting names ---------------------------------------------------

  /** The first type of a name is the one kept. */
  function Recorded(c: map<string, TypeId>, id: TypeId): map<string, TypeId> {
    if id.name in c then c else c[id.name := id]
  }

  function Gather(c: map<string, TypeId>, refs: seq<TypeId>): map<string, TypeId> {
    if refs == [] then c else Recorded(Gather(c, refs[..|refs| - 1]), refs[|refs| - 1])
  }

  ghost predicate Sane(env: Env, c: map<string, TypeId>) {
    forall n :: n in c ==> c[n] in env.decls && c[n].name == n
  }

  lemma {:induction false} GatherConcat(c: map<string, TypeId>, a: seq<TypeId>, b: seq<TypeId>)
    ensures Gather(c, a + b) == Gather(Gather(c, a), b)
  {
    if b == [] {
      assert a + b == a;
    } else {
      var n := |b| - 1;
      assert (a + b)[..|a + b| - 1] == a + b[..n];
      GatherConcat(c, a, b[..n]);
    }
  }

  lemma {:induction false} GatherKeys(env: Env, c: map<string, TypeId>, refs: seq<TypeId>)
    ensures Gather(c, refs).Keys == c.Keys + Names(refs)
    ensures Sane(env, c) && Known(env, refs) ==> Sane(env, Gather(c, refs))
    ensures forall n :: n in c ==> Gather(c, refs)[n] == c[n]
  {
    if refs != [] {
      var n := |refs| - 1;
      GatherKeys(env, c, refs[..n]);
      NamesConcat(refs[..n], [refs[n]]);
      assert refs == refs[..n] + [refs[n]];
      assert Names([refs[n]]) == {refs[n].name} by {
        assert [refs[n]][0] == refs[n];
      }
    }
  }

  // ----- what the emitted definitions are -----------------------------------

  ghost predicate AllFit(env: Env, models: Models) {
    WellFormed(env) && forall n :: n in models ==> FitsType(env, models[n], env.top)
  }

  /** Everything the models mention, and everything that mentions in turn. */
  ghost predicate Closed(env: Env, models: Models, names: set<string>)
    requires AllFit(env, models)
  {
    && (forall n :: n in models ==> Names(ModelGen(env, models[n]).refs) <= names)
    && (forall id :: id in env.decls && id.name in names && id.name !in models ==> Names(StructGen(env, id).refs) <= names)
  }

  ghost predicate Least(env: Env, models: Models, names: set<string>)
    requires AllFit(env, models)
  {
    forall x :: Closed(env, models, x) ==> names <= x
  }

  ghost predicate ModelDone(env: Env, models: Models, c: map<string, TypeId>, defs: map<string, Schema>, n: string)
    requires AllFit(env, models)
  {
    n in models && n in defs && defs[n] == ModelGen(env, models[n]).schema && Names(ModelGen(env, models[n]).refs) <= c.Keys
  }

  ghost predicate StructDone(env: Env, c: map<string, TypeId>, defs: map<string, Schema>, n: string)
    requires WellFormed(env)
  {
    && n in c && c[n] in env.decls && n in defs
    && defs[n] == StructGen(env, c[n]).schema && Names(StructGen(env, c[n]).refs) <= c.Keys
  }

  /** A finished set of definitions: the models, the names they lead to, and no others. */
  ghost predicate Result(env: Env, models: Models, c: map<string, TypeId>, defs: map<string, Schema>)
    requires AllFit(env, models)
  {
    && defs.Keys == models.Keys + c.Keys
    && Sane(env, c)
    && (forall n :: n in models ==> ModelDone(env, models, c, defs, n))
    && (forall n :: n in c && n !in models ==> StructDone(env, c, defs, n))
    && Least(env, models, c.Keys)
  }

  /** Every reference in every definition names a definition, even when struct names clash. */
  lemma EveryReferenceResolves(env: Env, models: Models, c: map<string, TypeId>, defs: map<string, Schema>, n: string)
    requires AllFit(env, models) && Result(env, models, c, defs) && n in defs
    ensures RefNames(defs[n]) <= defs.Keys
    ensures Tidy(defs[n])
  {
    hide WellFormed, RefNames, Tidy, Names, Least;
    if n in models {
      assert ModelDone(env, models, c, defs, n);
      ModelGenIsGood(env, models[n]);
    } else {
      assert StructDone(env, c, defs, n);
      StructGenIsGood(env, c[n]);
    }
  }

  ghost predicate UniqueNames(env: Env) {
    forall a, b :: a in env.decls && b in env.decls && a.name == b.name ==> a == b
  }

  lemma ResultIsClosed(env: Env, models: Models, c: map<string, TypeId>, defs: map<string, Schema>)
    requires AllFit(env, models) && Result(env, models, c, defs) && UniqueNames(env)
    ensures Closed(env, models, c.Keys)
  {
    hide WellFormed, Least, Names;
    forall n | n in models ensures Names(ModelGen(env, models[n]).refs) <= c.Keys {
      assert ModelDone(env, models, c, defs, n);
    }
    forall id | id in env.decls && id.name in c.Keys && id.name !in models
      ensures Names(StructGen(env, id).refs) <= c.Keys
    {
      assert StructDone(env, c, defs, id.name);
      assert c[id.name] == id;
    }
  }

  /** With unique struct names the definitions do not depend on the order anything was visited in. */
  lemma OrderDoesNotMatter(env: Env, models: Models, c1: map<string, TypeId>, d1: map<string, Schema>, c2: map<string, TypeId>, d2: map<string, Schema>)
    requires AllFit(env, models) && UniqueNames(env)
    requires Result(env, models, c1, d1) && Result(env, models, c2, d2)
    ensures c1 == c2 && d1 == d2
  {
    hide AllFit, Result;
    SameCollected(env, models, c1, d1, c2, d2);
    forall n | n in d1 ensures n in d2 && d1[n] == d2[n] {
      SameDefinition(env, models, c1, d1, d2, n);
    }
    SameKeys(env, models, c1, d1, d2);
  }

  lemma SameCollected(env: Env, models: Models, c1: map<string, TypeId>, d1: map<string, Schema>, c2: map<string, TypeId>, d2: map<string, Schema>)
    requires AllFit(env, models) && UniqueNames(env)
    requires Result(env, models, c1, d1) && Result(env, models, c2, d2)
    ensures c1 == c2
  {
    hide WellFormed, Names, Closed, ModelDone, StructDone;
    ResultIsClosed(env, models, c1, d1);
    ResultIsClosed(env, models, c2, d2);
    assert c1.Keys <= c2.Keys && c2.Keys <= c1.Keys;
  }

  lemma SameKeys(env: Env, models: Models, c: map<string, TypeId>, d1: map<string, Schema>, d2: map<string, Schema>)
    requires AllFit(env, models) && Result(env, models, c, d1) && Result(env, models, c, d2)
    ensures d1.Keys == d2.Keys
  {
    hide WellFormed, Names, Least, Closed, ModelDone, StructDone;
  }

  lemma SameDefinition(env: Env, models: Models, c: map<string, TypeId>, d1: map<string, Schema>, d2: map<string, Schema>, n: string)
    requires AllFit(env, models) && Result(env, models, c, d1) && Result(env, models, c, d2) && n in d1
    ensures n in d2 && d1[n] == d2[n]
  {
    hide WellFormed, Names, Least, Closed;
    if n in models {
      assert ModelDone(env, models, c, d1, n) && ModelDone(env, models, c, d2, n);
    } else {
      assert StructDone(env, c, d1, n) && StructDone(env, c, d2, n);
    }
  }

  /** The emitted names: the registered ones and the least set closed under mentioning. */
  lemma EmittedExactly(env: Env, models: Models, c: map<string, TypeId>, defs: map<string, Schema>, reach: set<string>)
    requires AllFit(env, models) && UniqueNames(env) && Result(env, models, c, defs)
    requires Closed(env, models, reach) && Least(env, models, reach)
    ensures defs.Keys == models.Keys + reach
  {
    ResultIsClosed(env, models, c, defs);
  }

  // ----- an instance ------------------------------------------------------------

  const NODE := TypeId("tree", "Node")

  const BASE := TypeId("tree", "Base")

  function Kid(name: string, t: Type): Field {
    Field(name, true, name == "", "", true, false, Tags("", "", "", "", "", "", ""), t)
  }

  /** One of every type that stands by itself. */
  function Every(): seq<Field> {
    [Kid("S", Str), Kid("I", Integer), Kid("B", Byte), Kid("N", Number), Kid("T", Boolean), Kid("R", RawMessage),
     Kid("W", Time), Kid("A", Interface), Kid("O", Other), Kid("M", Map(Array(Integer)))]
  }

  function NodeFields(): seq<Field> {
    [Kid("", Ptr(Named(BASE))), Kid("Next", Ptr(Named(NODE))), Kid("Kids", Slice(Named(NODE))), Kid("Every", Struct(Every()))]
  }

  /** A struct that embeds another, points to itself and has a field of every other type. */
  function Tree(): Env {
    Env(map[NODE := NodeFields(), BASE := []], map[NODE := 1, BASE := 0], 2)
  }

  lemma EveryFits(env: Env, r: nat)
    ensures FitsFields(env, Every(), r)
  {
    forall i | 0 <= i < |Every()| ensures FitsField(env, Every()[i], r) {
      if i == 9 {
        assert FitsType(env, Array(Integer), r);
      }
    }
  }

  lemma NodeFits(env: Env, r: nat)
    requires NODE in env.decls && BASE in env.decls && BASE in env.rank && env.rank[BASE] < r
    ensures FitsFields(env, NodeFields(), r)
  {
    EveryFits(env, r);
    hide Every;
    assert FitsType(env, Named(BASE), r) && FitsType(env, Named(NODE), r) && FitsType(env, Struct(Every()), r);
    assert EmbedFits(env, Named(BASE), r);
    forall i | 0 <= i < |NodeFields()| ensures FitsField(env, NodeFields()[i], r) {}
  }

  /** Cyclic types are within what all of this is about. */
  lemma CyclicTypesFit()
    ensures AllFit(Tree(), map["tree.Node" := Ptr(Named(NODE)), "nodes" := Slice(Named(NODE))]) && UniqueNames(Tree())
  {
    NodeFits(Tree(), 1);
    hide NodeFields, FitsFields;
    assert FitsFields(Tree(), [], 0) by {
      NoFieldsFit(Tree(), 0);
    }
    assert FitsType(Tree(), Named(NODE), 2);
  }

  lemma NoFieldsFit(env: Env, r: nat)
    ensures FitsFields(env, [], r)
  {}

  // ----- what tags add ----------------------------------------------------------

  function JoinedByCommas(parts: seq<string>): string {
    if parts == [] then ""
    else if |parts| == 1 then parts[0]
    else JoinedByCommas(parts[..|parts| - 1]) + "," + parts[|parts| - 1]
  }

  predicate NoComma(s: string) {
    forall i :: 0 <= i < |s| ==> s[i] != ','
  }

  /** Splitting at commas cuts at all of them and loses nothing else. */
  lemma {:induction false} CommasJoin(s: string)
    ensures JoinedByCommas(Commas(s)) == s
    ensures forall i :: 0 <= i < |Commas(s)| ==> NoComma(Commas(s)[i])
  {
    if s != "" {
      var n := |s| - 1;
      CommasJoin(s[..n]);
      assert s == s[..n] + [s[n]];
      if s[n] == ',' {
        OneMorePart(Commas(s[..n]));
      } else {
        LongerPart(Commas(s[..n]), s[n]);
      }
    }
  }

  lemma OneMorePart(parts: seq<string>)
    requires parts != []
    ensures JoinedByCommas(parts + [""]) == JoinedByCommas(parts) + [',']
  {
    assert (parts + [""])[..|parts|] == parts;
  }

  lemma LongerPart(parts: seq<string>, c: char)
    requires parts != []
    ensures var m := |parts| - 1; JoinedByCommas(parts[m := parts[m] + [c]]) == JoinedByCommas(parts) + [c]
  {
    var m := |parts| - 1;
    assert parts[m := parts[m] + [c]][..m] == parts[..m];
  }

  /** Each tag says its part, an absent one nothing; only the description is never missing. */
  ghost predicate SaysWhatTagsSay(d: Details, f: Field) {
    && (d.format.Some? <==> f.tags.format != "") && (d.format.Some? ==> d.format.value == f.tags.format)
    && (d.example.Some? <==> f.tags.example != "") && (d.example.Some? ==> d.example.value == f.tags.example)
    && (d.byDefault.Some? <==> f.tags.byDefault != "") && (d.byDefault.Some? ==> d.byDefault.value == f.tags.byDefault)
    && (d.enums == [] <==> f.tags.enums == "") && JoinedByCommas(d.enums) == f.tags.enums
    && (forall i :: 0 <= i < |d.enums| ==> NoComma(d.enums[i]))
    && d.rules == f.tags.binding
    && (f.tags.description != "" ==> d.description == f.tags.description)
    && (f.tags.description == "" && f.tags.doc != "" ==> d.description == f.tags.doc)
    && (f.tags.description == "" && f.tags.doc == "" ==>
          d.description == "Field " + if f.jsonName == "" then f.name else f.jsonName)
  }

  method TagDetails(field: Field) returns (details: Details)
    ensures details == DetailsOf(field) && SaysWhatTagsSay(details, field)
  {
    CommasJoin(field.tags.enums);
    details := Details(None, [], "", None, None, "");
    if field.tags.format != "" {
      details := details.(format := Some(field.tags.format));
    }
    if field.tags.enums != "" {
      details := details.(enums := Commas(field.tags.enums));
    }
    if field.tags.description != "" {
      details := details.(description := field.tags.description);
    } else if field.tags.doc != "" {
      details := details.(description := field.tags.doc);
    } else {
      details := details.(description := "Field " + PropName(field));
    }
    if field.tags.example != "" {
      details := details.(example := Some(field.tags.example));
    }
    if field.tags.byDefault != "" {
      details := details.(byDefault := Some(field.tags.byDefault));
    }
    details := details.(rules := field.tags.binding);
  }

  // ----- the program --------------------------------------------------------

  /** The schema under construction. */
  class Draft {
    var props: seq<Prop>
    var required: seq<string>

    constructor ()
      ensures props == [] && required == []
    {
      props, required := [], [];
    }
  }

  class SchemaGen {
    const env: Env
    var collected: map<string, TypeId>

    constructor (env: Env)
      ensures this.env == env && collected == map[]
    {
      this.env := env;
      collected := map[];
    }

    method Collect(id: TypeId)
      modifies this
      ensures collected == Gather(old(collected), [id])
    {
      assert [id][..0] == [];
      if id.name !in collected {
        collected := collected[id.name := id];
      }
    }

    method TypeSchema(t: Type, r: nat) returns (schema: Schema)
      requires WellFormed(env) && FitsType(env, t, r)
      modifies this
      ensures schema == TypeGen(env, t, r).schema
      ensures collected == Gather(old(collected), TypeGen(env, t, r).refs)
      decreases r, t, 0
    {
      hide WellFormed, FitsFields, FieldsGen;
      match t
      case Str => schema := Bare(Plain("string", ""));
      case Integer => schema := Bare(Plain("integer", "int64"));
      case Byte => schema := Bare(Plain("integer", "int64"));
      case Number => schema := Bare(Plain("number", "double"));
      case Boolean => schema := Bare(Plain("boolean", ""));
      case RawMessage => schema := Bare(Anything);
      case Slice(elem) =>
        if elem.Byte? {
          schema := Bare(Plain("string", "byte"));
        } else {
          var items := TypeSchema(elem, r);
          schema := Bare(List(items));
        }
      case Array(elem) =>
        var items := TypeSchema(elem, r);
        schema := Bare(List(items));
      case Map(value) =>
        var values := TypeSchema(value, r);
        schema := Bare(Dict(values));
      case Time => schema := Bare(Plain("string", "date-time"));
      case Struct(fields) => schema := StructSchema(fields, r);
      case Named(id) =>
        Collect(id);
        schema := Bare(Ref(id.name));
      case Interface => schema := Bare(Anything);
      case Ptr(elem) => schema := TypeSchema(elem, r);
      case Other => schema := Bare(Plain("object", ""));
    }

    method StructSchema(fields: seq<Field>, r: nat) returns (schema: Schema)
      requires WellFormed(env) && FitsFields(env, fields, r)
      modifies this
      ensures var b := FieldsGen(env, fields, r, EMPTY);
              && schema == Bare(Record(b.props, b.required))
              && collected == Gather(old(collected), b.refs)
      decreases r, fields, 1
    {
      hide WellFormed, FitsFields, FieldsGen;
      var draft := new Draft();
      AddStructFields(draft, fields, r, collected, EMPTY);
      schema := Bare(Record(draft.props, draft.required));
    }

    method AddStructFields(draft: Draft, fields: seq<Field>, r: nat, ghost base: map<string, TypeId>, ghost b: Built)
      requires WellFormed(env) && FitsFields(env, fields, r)
      requires draft.props == b.props && draft.required == b.required && collected == Gather(base, b.refs)
      modifies this, draft
      ensures var after := FieldsGen(env, fields, r, b);
              draft.props == after.props && draft.required == after.required && collected == Gather(base, after.refs)
      decreases r, fields, 0
    {
      hide WellFormed, FieldGen;
      ghost var now := b;
      var i := 0;
      assert fields[..0] == [];
      while i < |fields|
        invariant 0 <= i <= |fields| && FitsFields(env, fields[..i], r)
        invariant now == FieldsGen(env, fields[..i], r, b)
        invariant draft.props == now.props && draft.required == now.required && collected == Gather(base, now.refs)
      {
        assert fields[..i + 1][..i] == fields[..i];
        AddField(draft, fields[i], r, base, now);
        now := FieldGen(env, fields[i], r, now);
        i := i + 1;
      }
      assert fields[..i] == fields;
    }

    method AddField(draft: Draft, field: Field, r: nat, ghost base: map<string, TypeId>, ghost b: Built)
      requires WellFormed(env) && FitsField(env, field, r)
      requires draft.props == b.props && draft.required == b.required && collected == Gather(base, b.refs)
      modifies this, draft
      ensures var after := FieldGen(env, field, r, b);
              draft.props == after.props && draft.required == after.required && collected == Gather(base, after.refs)
      decreases r, field, 0
    {
      hide WellFormed, TypeGen, EmbedGen;
      if !field.exported && !field.embedded {
        return;
      }
      if field.jsonName == "-" {
        return;
      }
      if field.embedded && field.jsonName == "" && IsStruct(field.typ) {
        AddEmbedded(draft, field.typ, r, base, b);
        return;
      }
      var propName := if field.jsonName != "" then field.jsonName else field.name;
      GatherConcat(base, b.refs, TypeGen(env, field.typ, r).refs);
      var schema := FieldSchema(field, r);
      draft.props := Put(draft.props, propName, schema);
      if field.mustBind || !field.omitempty {
        draft.required := draft.required + [propName];
      }
    }

    /** Promotes the fields of an embedded struct, whatever pointers lead to it. */
    method AddEmbedded(draft: Draft, t: Type, r: nat, ghost base: map<string, TypeId>, ghost b: Built)
      requires WellFormed(env) && IsStruct(t) && FitsType(env, t, r) && EmbedFits(env, t, r)
      requires draft.props == b.props && draft.required == b.required && collected == Gather(base, b.refs)
      modifies this, draft
      ensures var after := EmbedGen(env, t, r, b);
              draft.props == after.props && draft.required == after.required && collected == Gather(base, after.refs)
      decreases r, t, 0
    {
      hide FieldsGen, FitsFields;
      match t
      case Ptr(elem) => AddEmbedded(draft, elem, r, base, b);
      case Struct(fields) => AddStructFields(draft, fields, r, base, b);
      case Named(id) => AddStructFields(draft, env.decls[id], env.rank[id], base, b);
    }

    method FieldSchema(field: Field, r: nat) returns (schema: Schema)
      requires WellFormed(env) && FitsType(env, field.typ, r)
      modifies this
      ensures schema == Dress(TypeGen(env, field.typ, r).schema, field)
      ensures schema.shape == TypeGen(env, field.typ, r).schema.shape
      ensures schema.shape.Ref? ==> schema == TypeGen(env, field.typ, r).schema
      ensures !schema.shape.Ref? ==> schema.details.Some? && SaysWhatTagsSay(schema.details.value, field)
      ensures collected == Gather(old(collected), TypeGen(env, field.typ, r).refs)
      decreases r, field.typ, 1
    {
      hide WellFormed, FitsType, TypeGen, SaysWhatTagsSay, DetailsOf;
      schema := TypeSchema(field.typ, r);
      // A reference stands alone.
      if schema.shape.Ref? {
        return;
      }
      var details := TagDetails(field);
      schema := schema.(details := Some(details));
    }

    method ModelSchema(t: Type) returns (schema: Schema)
      requires WellFormed(env) && FitsType(env, t, env.top)
      modifies this
      ensures schema == ModelGen(env, t).schema
      ensures collected == Gather(old(collected), ModelGen(env, t).refs)
      decreases t
    {
      hide FieldsGen, FitsFields;
      match t
      case Ptr(elem) => schema := ModelSchema(elem);
      case Struct(fields) => schema := StructSchema(fields, env.top);
      case Named(id) => schema := StructSchema(env.decls[id], env.rank[id]);
      case _ => schema := TypeSchema(t, env.top);
    }

    /** Every registered model, then whatever has been collected and not defined, until nothing is. */
    method BuildDefinitions(models: Models) returns (definitions: map<string, Schema>)
      requires AllFit(env, models) && collected == map[]
      modifies this
      ensures Result(env, models, collected, definitions)
    {
      hide AllFit, WellFormed, Closed, Names;
      definitions := DefineModels(models);
      var pending := collected.Keys - definitions.Keys;
      while pending != {}
        invariant pending == collected.Keys - definitions.Keys
        invariant Progress(env, models, collected, definitions)
        decreases |DeclNames(env) - definitions.Keys|
      {
        definitions := DefinePending(models, definitions, pending);
        pending := collected.Keys - definitions.Keys;
      }
      Finished(env, models, collected, definitions);
    }

    method DefineModels(models: Models) returns (definitions: map<string, Schema>)
      requires AllFit(env, models) && collected == map[]
      modifies this
      ensures definitions.Keys == models.Keys && Progress(env, models, collected, definitions)
    {
      hide WellFormed, Names, Least, ModelDone, ModelGen;
      definitions := map[];
      NothingYet(env, models);
      assert collected.Keys == {};
      var todo := models.Keys;
      while todo != {}
        invariant todo <= models.Keys && definitions.Keys == models.Keys - todo
        invariant Sane(env, collected) && Least(env, models, collected.Keys)
        invariant forall n :: n in definitions ==> ModelDone(env, models, collected, definitions, n)
        decreases |todo|
      {
        var name :| name in todo;
        ghost var c, d := collected, definitions;
        var schema := ModelSchema(models[name]);
        definitions := definitions[name := schema];
        AfterModel(env, models, c, d, name);
        todo := todo - {name};
      }
    }

    /** One round over what was pending when it began. */
    method DefinePending(models: Models, before: map<string, Schema>, pending: set<string>) returns (definitions: map<string, Schema>)
      requires AllFit(env, models) && Progress(env, models, collected, before)
      requires pending != {} && forall n :: n in pending ==> n in collected && n !in before
      modifies this
      ensures Progress(env, models, collected, definitions)
      ensures |DeclNames(env) - definitions.Keys| < |DeclNames(env) - before.Keys|
    {
      hide *;
      definitions := before;
      var todo := pending;
      while todo != {}
        invariant forall n :: n in todo ==> n in pending && n in collected && n !in definitions
        invariant forall n :: n in before || (n in pending && n !in todo) ==> n in definitions
        invariant forall n :: n in pending ==> n in collected
        invariant Progress(env, models, collected, definitions)
        decreases |todo|
      {
        var name :| name in todo;
        definitions := DefineStruct(models, definitions, name);
        todo := todo - {name};
      }
      SaneIn(env, models, collected, definitions);
      var one :| one in pending;
      RoundShrinks(env, models, collected, before.Keys, definitions.Keys, one);
    }

    method DefineStruct(ghost models: Models, before: map<string, Schema>, name: string) returns (definitions: map<string, Schema>)
      requires AllFit(env, models) && Progress(env, models, collected, before)
      requires name in collected && name !in before
      modifies this
      ensures old(collected).Keys <= collected.Keys
      ensures definitions.Keys == before.Keys + {name} && Progress(env, models, collected, definitions)
    {
      hide AllFit, WellFormed, Names, Least, StructDone, ModelDone, FieldsGen, Closed, Progress;
      var id := collected[name];
      PendingIsDeclared(env, models, collected, before, name);
      AfterStruct(env, models, collected, before, name);
      var schema := StructSchema(env.decls[id], env.rank[id]);
      definitions := before[name := schema];
    }
  }

  lemma SaneIn(env: Env, models: Models, c: map<string, TypeId>, defs: map<string, Schema>)
    requires AllFit(env, models) && Progress(env, models, c, defs)
    ensures Sane(env, c)
  {}

  ghost function DeclNames(env: Env): set<string> {
    set id | id in env.decls :: id.name
  }

  /** Where the worklist stands: all models are done, and all that is defined. */
  ghost predicate Progress(env: Env, models: Models, c: map<string, TypeId>, defs: map<string, Schema>)
    requires AllFit(env, models)
  {
    && models.Keys <= defs.Keys <= models.Keys + c.Keys
    && Sane(env, c) && Least(env, models, c.Keys)
    && (forall n :: n in models ==> ModelDone(env, models, c, defs, n))
    && (forall n :: n in defs && n !in models ==> StructDone(env, c, defs, n))
  }

  lemma NothingYet(env: Env, models: Models)
    requires AllFit(env, models)
    ensures Sane(env, map[]) && Least(env, models, {})
  {}

  lemma Finished(env: Env, models: Models, c: map<string, TypeId>, defs: map<string, Schema>)
    requires AllFit(env, models) && Progress(env, models, c, defs) && c.Keys <= defs.Keys
    ensures Result(env, models, c, defs)
  {
    hide WellFormed, Names, Least, StructDone, ModelDone;
    assert defs.Keys == models.Keys + c.Keys;
  }

  lemma PendingIsDeclared(env: Env, models: Models, c: map<string, TypeId>, defs: map<string, Schema>, n: string)
    requires AllFit(env, models) && Progress(env, models, c, defs) && n in c
    ensures WellFormed(env) && c[n] in env.decls && c[n] in env.rank
    ensures FitsFields(env, env.decls[c[n]], env.rank[c[n]])
  {}

  /** Collecting more keeps what is done done. */
  lemma MoreCollected(env: Env, models: Models, c: map<string, TypeId>, c': map<string, TypeId>, d: map<string, Schema>, d': map<string, Schema>, n: string)
    requires AllFit(env, models)
    requires c.Keys <= c'.Keys && (forall m :: m in c ==> c'[m] == c[m])
    requires n in d ==> n in d' && d'[n] == d[n]
    ensures ModelDone(env, models, c, d, n) ==> ModelDone(env, models, c', d', n)
    ensures StructDone(env, c, d, n) ==> StructDone(env, c', d', n)
  {}

  lemma AfterModel(env: Env, models: Models, c: map<string, TypeId>, defs: map<string, Schema>, n: string)
    requires AllFit(env, models) && n in models && n !in defs
    requires Sane(env, c) && Least(env, models, c.Keys)
    requires forall m :: m in defs ==> ModelDone(env, models, c, defs, m)
    ensures var g := ModelGen(env, models[n]);
            var c', defs' := Gather(c, g.refs), defs[n := g.schema];
            && Sane(env, c') && Least(env, models, c'.Keys)
            && forall m :: m in defs' ==> ModelDone(env, models, c', defs', m)
  {
    var g := ModelGen(env, models[n]);
    var c', defs' := Gather(c, g.refs), defs[n := g.schema];
    ModelGenIsGood(env, models[n]);
    GatherKeys(env, c, g.refs);
    LeastGrows(env, models, c.Keys, models[n], n);
    hide WellFormed, Names, Least, ModelGen;
    forall m | m in defs' ensures ModelDone(env, models, c', defs', m) {
      if m != n {
        MoreCollected(env, models, c, c', defs, defs', m);
      }
    }
  }

  lemma LeastGrows(env: Env, models: Models, names: set<string>, t: Type, n: string)
    requires AllFit(env, models) && Least(env, models, names) && n in models && models[n] == t
    ensures Least(env, models, names + Names(ModelGen(env, t).refs))
  {
    hide WellFormed, Names, ModelGen, StructGen;
    forall x | Closed(env, models, x) ensures names + Names(ModelGen(env, t).refs) <= x {
      assert Names(ModelGen(env, models[n]).refs) <= x;
    }
  }

  lemma LeastGrowsByStruct(env: Env, models: Models, names: set<string>, id: TypeId)
    requires AllFit(env, models) && Least(env, models, names)
    requires id in env.decls && id.name in names && id.name !in models
    ensures Least(env, models, names + Names(StructGen(env, id).refs))
  {
    hide WellFormed, Names, ModelGen, StructGen;
    forall x | Closed(env, models, x) ensures names + Names(StructGen(env, id).refs) <= x {
      assert id.name in x;
    }
  }

  lemma AfterStruct(env: Env, models: Models, c: map<string, TypeId>, defs: map<string, Schema>, n: string)
    requires AllFit(env, models) && Progress(env, models, c, defs) && n in c && n !in defs && c[n] in env.decls
    ensures var g := StructGen(env, c[n]);
            c.Keys <= Gather(c, g.refs).Keys && Progress(env, models, Gather(c, g.refs), defs[n := g.schema])
  {
    var g := StructGen(env, c[n]);
    var c', defs' := Gather(c, g.refs), defs[n := g.schema];
    StructGenIsGood(env, c[n]);
    GatherKeys(env, c, g.refs);
    LeastGrowsByStruct(env, models, c.Keys, c[n]);
    assert StructDone(env, c', defs', n);
    hide WellFormed, Names, Least, ModelGen, StructGen, StructDone, ModelDone;
    forall m | m in models ensures ModelDone(env, models, c', defs', m) {
      MoreCollected(env, models, c, c', defs, defs', m);
    }
    forall m | m in defs' && m !in models ensures StructDone(env, c', defs', m) {
      if m != n {
        MoreCollected(env, models, c, c', defs, defs', m);
      }
    }
  }

  lemma RoundShrinks(env: Env, models: Models, c: map<string, TypeId>, before: set<string>, after: set<string>, one: string)
    requires Sane(env, c) && before <= after && one in after && one !in before && one in c
    ensures |DeclNames(env) - after| < |DeclNames(env) - before|
  {
    var a, b := DeclNames(env) - after, DeclNames(env) - before;
    assert c[one].name == one;
    assert one in b && one !in a;
    assert b == a + (b - a);
    assert one in b - a;
  }
}
