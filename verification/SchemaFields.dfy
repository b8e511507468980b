/** Which field of a struct a property describes, and what is listed as required. */
module SchemaFields {
  import opened Prelude
  import opened Schemas

  /**
   One field as it reaches the schema, promoted or not: the field and the rank it is found at,
   through how many embeddings, and whether encoding/json passes it over.
   */
  datatype Leaf = Leaf(name: string, field: Field, rank: nat, mandatory: bool, depth: nat, tagged: bool, ignored: bool)

  // ----- the fields that reach the schema, in order --------------------------

  predicate IsTime(t: Type) {
    t.Time? || (t.Ptr? && IsTime(t.elem))
  }

  /**
   encoding/json passes over an embedded field that is neither exported nor a struct, and promotes
   the fields of an embedded time, of which there are none to see.
   */
  predicate Ignored(f: Field) {
    && f.embedded && !IsStruct(f.typ)
    && if IsTime(f.typ) then f.jsonName == "" else !f.exported
  }

  function LeafOf(f: Field, r: nat, depth: nat): Leaf {
    Leaf(PropName(f), f, r, MustAppear(f), depth, f.jsonName != "", Ignored(f))
  }

  ghost predicate Fit(env: Env, leaves: seq<Leaf>) {
    forall k :: 0 <= k < |leaves| ==> FitsType(env, leaves[k].field.typ, leaves[k].rank)
  }

  ghost function FieldsLeaves(env: Env, fields: seq<Field>, r: nat, depth: nat): (leaves: seq<Leaf>)
    requires WellFormed(env) && FitsFields(env, fields, r)
    ensures Fit(env, leaves)
    decreases r, fields
  {
    if fields == [] then []
    else
      var n := |fields| - 1;
      FieldsLeaves(env, fields[..n], r, depth) + FieldLeaves(env, fields[n], r, depth)
  }

  ghost function FieldLeaves(env: Env, f: Field, r: nat, depth: nat): (leaves: seq<Leaf>)
    requires WellFormed(env) && FitsField(env, f, r)
    ensures Fit(env, leaves)
    decreases r, f
  {
    if Skipped(f) then []
    else if Flattens(f) then EmbedLeaves(env, f.typ, r, depth + 1)
    else [LeafOf(f, r, depth)]
  }

  ghost function EmbedLeaves(env: Env, t: Type, r: nat, depth: nat): (leaves: seq<Leaf>)
    requires WellFormed(env) && IsStruct(t) && FitsType(env, t, r) && EmbedFits(env, t, r)
    ensures Fit(env, leaves)
    decreases r, t
  {
    match t
    case Ptr(elem) => EmbedLeaves(env, elem, r, depth)
    case Struct(fields) => FieldsLeaves(env, fields, r, depth)
    case Named(id) => FieldsLeaves(env, env.decls[id], env.rank[id], depth)
  }

  // ----- which fields these are ------------------------------------------------

  predicate LeadsToStruct(t: Type) {
    t.Struct? || t.Named? || (t.Ptr? && LeadsToStruct(t.elem))
  }

  lemma {:induction false} StructsAreStructs(t: Type)
    ensures IsStruct(t) <==> LeadsToStruct(t)
  {
    if t.Ptr? {
      StructsAreStructs(t.elem);
    }
  }

  /** A field the JSON of its struct shows under a name of its own. */
  predicate Shown(f: Field) {
    && (f.exported || f.embedded) && f.jsonName != "-"
    && !(f.embedded && f.jsonName == "" && LeadsToStruct(f.typ))
  }

  /** A struct, or a pointer to one, that is embedded without a name: its fields are shown instead. */
  predicate Dissolves(f: Field) {
    f.embedded && f.jsonName == "" && LeadsToStruct(f.typ)
  }

  /** The leaf is that of a field shown by the struct, or by what it dissolves, one level further down. */
  ghost predicate Reaches(env: Env, fields: seq<Field>, r: nat, depth: nat, leaf: Leaf)
    requires WellFormed(env) && FitsFields(env, fields, r)
    decreases r, fields
  {
    exists i :: 0 <= i < |fields| && ReachesBy(env, fields[i], r, depth, leaf)
  }

  ghost predicate ReachesBy(env: Env, f: Field, r: nat, depth: nat, leaf: Leaf)
    requires WellFormed(env) && FitsField(env, f, r)
    decreases r, f
  {
    if Dissolves(f) then Flattens(f) && ReachesWithin(env, f.typ, r, depth + 1, leaf)
    else
      && Shown(f) && leaf.field == f && leaf.rank == r && leaf.depth == depth
      && leaf.name == (if f.jsonName == "" then f.name else f.jsonName)
      && leaf.mandatory == (f.mustBind || !f.omitempty) && leaf.tagged == (f.jsonName != "") && leaf.ignored == Ignored(f)
  }

  ghost predicate ReachesWithin(env: Env, t: Type, r: nat, depth: nat, leaf: Leaf)
    requires WellFormed(env) && IsStruct(t) && FitsType(env, t, r) && EmbedFits(env, t, r)
    decreases r, t
  {
    match t
    case Ptr(elem) => ReachesWithin(env, elem, r, depth, leaf)
    case Struct(fields) => Reaches(env, fields, r, depth, leaf)
    case Named(id) => Reaches(env, env.decls[id], env.rank[id], depth, leaf)
  }

  /** The leaves of a struct are those of the fields it shows, and of no others. */
  lemma {:induction false} LeavesAreTheShown(env: Env, fields: seq<Field>, r: nat, depth: nat, leaf: Leaf)
    requires WellFormed(env) && FitsFields(env, fields, r)
    ensures leaf in FieldsLeaves(env, fields, r, depth) <==> Reaches(env, fields, r, depth, leaf)
    decreases r, fields
  {
    hide WellFormed, FieldLeaves, ReachesBy;
    if fields != [] {
      var n := |fields| - 1;
      LeavesAreTheShown(env, fields[..n], r, depth, leaf);
      LeavesOfOne(env, fields[n], r, depth, leaf);
      assert forall i :: 0 <= i < n ==> fields[..n][i] == fields[i];
    }
  }

  lemma {:induction false} LeavesOfOne(env: Env, f: Field, r: nat, depth: nat, leaf: Leaf)
    requires WellFormed(env) && FitsField(env, f, r)
    ensures leaf in FieldLeaves(env, f, r, depth) <==> ReachesBy(env, f, r, depth, leaf)
    decreases r, f
  {
    hide WellFormed, EmbedLeaves, ReachesWithin;
    StructsAreStructs(f.typ);
    if Flattens(f) {
      LeavesWithin(env, f.typ, r, depth + 1, leaf);
    }
  }

  lemma {:induction false} LeavesWithin(env: Env, t: Type, r: nat, depth: nat, leaf: Leaf)
    requires WellFormed(env) && IsStruct(t) && FitsType(env, t, r) && EmbedFits(env, t, r)
    ensures leaf in EmbedLeaves(env, t, r, depth) <==> ReachesWithin(env, t, r, depth, leaf)
    decreases r, t
  {
    match t
    case Ptr(elem) => LeavesWithin(env, elem, r, depth, leaf);
    case Struct(fields) => LeavesAreTheShown(env, fields, r, depth, leaf);
    case Named(id) => LeavesAreTheShown(env, env.decls[id], env.rank[id], depth, leaf);
  }

  // ----- the schema is made of them ------------------------------------------

  ghost function SchemaOf(env: Env, leaf: Leaf): Schema
    requires WellFormed(env) && FitsType(env, leaf.field.typ, leaf.rank)
  {
    Dress(TypeGen(env, leaf.field.typ, leaf.rank).schema, leaf.field)
  }

  ghost function PutAll(env: Env, props: seq<Prop>, leaves: seq<Leaf>): seq<Prop>
    requires WellFormed(env) && Fit(env, leaves)
  {
    if leaves == [] then props
    else
      var n := |leaves| - 1;
      Put(PutAll(env, props, leaves[..n]), leaves[n].name, SchemaOf(env, leaves[n]))
  }

  function Mandatory(leaves: seq<Leaf>): seq<string> {
    if leaves == [] then []
    else
      var n := |leaves| - 1;
      Mandatory(leaves[..n]) + if leaves[n].mandatory then [leaves[n].name] else []
  }

  lemma {:induction false} PutAllConcat(env: Env, props: seq<Prop>, a: seq<Leaf>, b: seq<Leaf>)
    requires WellFormed(env) && Fit(env, a) && Fit(env, b)
    ensures Fit(env, a + b) && PutAll(env, props, a + b) == PutAll(env, PutAll(env, props, a), b)
  {
    hide WellFormed, FitsType, SchemaOf, Put;
    if b == [] {
      assert a + b == a;
    } else {
      var n := |b| - 1;
      assert (a + b)[..|a + b| - 1] == a + b[..n] && (a + b)[|a + b| - 1] == b[n];
      PutAllConcat(env, props, a, b[..n]);
    }
  }

  lemma {:induction false} MandatoryConcat(a: seq<Leaf>, b: seq<Leaf>)
    ensures Mandatory(a + b) == Mandatory(a) + Mandatory(b)
  {
    if b == [] {
      assert a + b == a;
    } else {
      var n := |b| - 1;
      assert (a + b)[..|a + b| - 1] == a + b[..n];
      MandatoryConcat(a, b[..n]);
    }
  }

  /** b' is b with the leaves added to its properties and its required names. */
  ghost predicate Adds(env: Env, b: Built, b': Built, leaves: seq<Leaf>)
    requires WellFormed(env) && Fit(env, leaves)
  {
    b'.props == PutAll(env, b.props, leaves) && b'.required == b.required + Mandatory(leaves)
  }

  lemma AddsConcat(env: Env, b: Built, c: Built, d: Built, first: seq<Leaf>, next: seq<Leaf>)
    requires WellFormed(env) && Fit(env, first) && Fit(env, next)
    requires Adds(env, b, c, first) && Adds(env, c, d, next)
    ensures Fit(env, first + next) && Adds(env, b, d, first + next)
  {
    PutAllConcat(env, b.props, first, next);
    MandatoryConcat(first, next);
  }

  /** A struct's properties and required names are its leaves, put in order. */
  lemma {:induction false} FieldsAddLeaves(env: Env, fields: seq<Field>, r: nat, b: Built, depth: nat)
    requires WellFormed(env) && FitsFields(env, fields, r)
    ensures Adds(env, b, FieldsGen(env, fields, r, b), FieldsLeaves(env, fields, r, depth))
    decreases r, fields
  {
    hide WellFormed, FieldGen, FieldLeaves;
    if fields != [] {
      hide Adds;
      var n := |fields| - 1;
      var c := FieldsGen(env, fields[..n], r, b);
      FieldsAddLeaves(env, fields[..n], r, b, depth);
      FieldAddsLeaves(env, fields[n], r, c, depth);
      AddsConcat(env, b, c, FieldGen(env, fields[n], r, c), FieldsLeaves(env, fields[..n], r, depth), FieldLeaves(env, fields[n], r, depth));
    }
  }

  lemma {:induction false} FieldAddsLeaves(env: Env, f: Field, r: nat, b: Built, depth: nat)
    requires WellFormed(env) && FitsField(env, f, r)
    ensures Adds(env, b, FieldGen(env, f, r, b), FieldLeaves(env, f, r, depth))
    decreases r, f
  {
    hide WellFormed, TypeGen, EmbedGen, EmbedLeaves, Adds;
    if Skipped(f) {
      AddsNone(env, b);
    } else if Flattens(f) {
      EmbedAddsLeaves(env, f.typ, r, b, depth + 1);
    } else {
      AddsOne(env, b, f, r, depth);
    }
  }

  lemma AddsNone(env: Env, b: Built)
    requires WellFormed(env)
    ensures Adds(env, b, b, [])
  {
    assert b.required + [] == b.required;
  }

  lemma AddsOne(env: Env, b: Built, f: Field, r: nat, depth: nat)
    requires WellFormed(env) && FitsType(env, f.typ, r)
    ensures Fit(env, [LeafOf(f, r, depth)])
    ensures var g := TypeGen(env, f.typ, r);
            Adds(env, b, Built(Put(b.props, PropName(f), Dress(g.schema, f)),
                               if MustAppear(f) then b.required + [PropName(f)] else b.required, b.refs + g.refs), [LeafOf(f, r, depth)])
  {
    hide WellFormed, FitsType, TypeGen;
    var leaf := LeafOf(f, r, depth);
    assert [leaf][..0] == [] && PutAll(env, b.props, []) == b.props;
    assert PutAll(env, b.props, [leaf]) == Put(b.props, leaf.name, SchemaOf(env, leaf));
    assert Mandatory([leaf]) == if leaf.mandatory then [leaf.name] else [];
    assert b.required + [] == b.required;
  }

  lemma {:induction false} EmbedAddsLeaves(env: Env, t: Type, r: nat, b: Built, depth: nat)
    requires WellFormed(env) && IsStruct(t) && FitsType(env, t, r) && EmbedFits(env, t, r)
    ensures Adds(env, b, EmbedGen(env, t, r, b), EmbedLeaves(env, t, r, depth))
    decreases r, t
  {
    hide Adds;
    match t
    case Ptr(elem) => EmbedAddsLeaves(env, elem, r, b, depth);
    case Struct(fields) => FieldsAddLeaves(env, fields, r, b, depth);
    case Named(id) => FieldsAddLeaves(env, env.decls[id], env.rank[id], b, depth);
  }

  // ----- which leaf a property describes ------------------------------------

  function Lookup(props: seq<Prop>, n: string): Option<Schema> {
    if props == [] then None else if props[0].name == n then Some(props[0].schema) else Lookup(props[1..], n)
  }

  lemma {:induction false} LookupPut(props: seq<Prop>, name: string, s: Schema, n: string)
    ensures Lookup(Put(props, name, s), n) == if n == name then Some(s) else Lookup(props, n)
  {
    if props != [] {
      if props[0].name == name {
        assert ([Prop(name, s)] + props[1..])[1..] == props[1..];
      } else {
        LookupPut(props[1..], name, s, n);
        assert ([props[0]] + Put(props[1..], name, s))[1..] == Put(props[1..], name, s);
      }
    }
  }

  /** Leaf k is the last of its name. */
  ghost predicate Prevails(leaves: seq<Leaf>, k: int) {
    0 <= k < |leaves| && forall j :: k < j < |leaves| ==> leaves[j].name != leaves[k].name
  }

  lemma {:induction false} LookupPrevailing(env: Env, props: seq<Prop>, leaves: seq<Leaf>, k: nat)
    requires WellFormed(env) && Fit(env, leaves) && Prevails(leaves, k)
    ensures Lookup(PutAll(env, props, leaves), leaves[k].name) == Some(SchemaOf(env, leaves[k]))
  {
    hide Put, Lookup, WellFormed, FitsType, SchemaOf;
    var m := |leaves| - 1;
    LookupPut(PutAll(env, props, leaves[..m]), leaves[m].name, SchemaOf(env, leaves[m]), leaves[k].name);
    if k < m {
      assert forall j :: k < j < m ==> leaves[..m][j] == leaves[j];
      LookupPrevailing(env, props, leaves[..m], k);
    }
  }

  lemma {:induction false} LookupOther(env: Env, props: seq<Prop>, leaves: seq<Leaf>, n: string)
    requires WellFormed(env) && Fit(env, leaves) && forall k :: 0 <= k < |leaves| ==> leaves[k].name != n
    ensures Lookup(PutAll(env, props, leaves), n) == Lookup(props, n)
  {
    hide Put, Lookup, WellFormed, FitsType, SchemaOf;
    if leaves != [] {
      var m := |leaves| - 1;
      LookupOther(env, props, leaves[..m], n);
      LookupPut(PutAll(env, props, leaves[..m]), leaves[m].name, SchemaOf(env, leaves[m]), n);
    }
  }

  lemma {:induction false} SomeLeafPrevails(leaves: seq<Leaf>, k: nat) returns (j: nat)
    requires k < |leaves|
    ensures k <= j && Prevails(leaves, j) && leaves[j].name == leaves[k].name
    decreases |leaves| - k
  {
    if i :| k < i < |leaves| && leaves[i].name == leaves[k].name {
      j := SomeLeafPrevails(leaves, i);
    } else {
      j := k;
    }
  }

  /**
   A property describes the last field of its name, promoted fields counting where they are
   embedded. So a field keeps its property exactly when no later field, its own or promoted,
   has its name; and there is a property for every name, and for no other.
   */
  lemma TheLastFieldPrevails(env: Env, fields: seq<Field>, r: nat, n: string) returns (k: int)
    requires WellFormed(env) && FitsFields(env, fields, r)
    ensures var leaves := FieldsLeaves(env, fields, r, 0);
            var described := Lookup(FieldsGen(env, fields, r, EMPTY).props, n);
            && (described.Some? <==> exists j :: 0 <= j < |leaves| && leaves[j].name == n)
            && (described.Some? ==> Prevails(leaves, k) && leaves[k].name == n && described == Some(SchemaOf(env, leaves[k])))
            && (forall j :: Prevails(leaves, j) && leaves[j].name == n ==> j == k)
  {
    hide WellFormed, FieldsGen, FieldsLeaves;
    var leaves := FieldsLeaves(env, fields, r, 0);
    FieldsAddLeaves(env, fields, r, EMPTY, 0);
    k := -1;
    if j :| 0 <= j < |leaves| && leaves[j].name == n {
      k := SomeLeafPrevails(leaves, j);
      LookupPrevailing(env, [], leaves, k);
    } else {
      LookupOther(env, [], leaves, n);
    }
  }

  // ----- against what encoding/json emits --------------------------------------

  /**
   The field encoding/json emits under its name: nearer the surface than every other of that name,
   or as near and the only one of those whose name comes from a tag.
   */
  ghost predicate Dominates(leaves: seq<Leaf>, k: int) {
    && 0 <= k < |leaves| && !leaves[k].ignored
    && forall j :: 0 <= j < |leaves| && j != k && !leaves[j].ignored && leaves[j].name == leaves[k].name ==>
         leaves[k].depth < leaves[j].depth || (leaves[k].depth == leaves[j].depth && leaves[k].tagged && !leaves[j].tagged)
  }

  ghost predicate Emits(leaves: seq<Leaf>, n: string, k: int) {
    Dominates(leaves, k) && leaves[k].name == n
  }

  /** The schema of what encoding/json emits under a name, if it emits anything. */
  ghost function JsonField(env: Env, leaves: seq<Leaf>, n: string): Option<Schema>
    requires WellFormed(env) && Fit(env, leaves)
  {
    if k :| Emits(leaves, n, k) then Some(SchemaOf(env, leaves[k])) else None
  }

  lemma OneDominates(leaves: seq<Leaf>, n: string, j: int, k: int)
    requires Emits(leaves, n, j) && Emits(leaves, n, k)
    ensures j == k
  {}

  lemma JsonFieldIs(env: Env, leaves: seq<Leaf>, n: string, k: int)
    requires WellFormed(env) && Fit(env, leaves) && Emits(leaves, n, k)
    ensures JsonField(env, leaves, n) == Some(SchemaOf(env, leaves[k]))
  {
    hide WellFormed, FitsType;
    var j :| Emits(leaves, n, j) && JsonField(env, leaves, n) == Some(SchemaOf(env, leaves[j]));
    OneDominates(leaves, n, j, k);
  }

  /** The last field of its name is the one encoding/json emits, or is described just as it is. */
  ghost predicate LastIsEmitted(env: Env, leaves: seq<Leaf>, k: int)
    requires WellFormed(env) && Fit(env, leaves)
  {
    0 <= k < |leaves| && exists j :: Emits(leaves, leaves[k].name, j) && SchemaOf(env, leaves[j]) == SchemaOf(env, leaves[k])
  }

  /**
   A struct's properties are those encoding/json emits, name by name, exactly when for every name
   the last field of that name is the one it emits, or is described as that one is.
   */
  lemma MatchesJsonExactlyWhen(env: Env, fields: seq<Field>, r: nat)
    requires WellFormed(env) && FitsFields(env, fields, r)
    ensures var leaves, props := FieldsLeaves(env, fields, r, 0), FieldsGen(env, fields, r, EMPTY).props;
            (forall n :: Lookup(props, n) == JsonField(env, leaves, n))
            <==> forall k :: Prevails(leaves, k) ==> LastIsEmitted(env, leaves, k)
  {
    hide WellFormed, FieldsGen, FieldsLeaves, Lookup, Prevails, Dominates;
    var leaves, props := FieldsLeaves(env, fields, r, 0), FieldsGen(env, fields, r, EMPTY).props;
    if forall n :: Lookup(props, n) == JsonField(env, leaves, n) {
      forall k | Prevails(leaves, k) ensures LastIsEmitted(env, leaves, k) {
        NameMatches(env, fields, r, k);
        assert Lookup(props, leaves[k].name) == JsonField(env, leaves, leaves[k].name);
      }
    }
    if forall k :: Prevails(leaves, k) ==> LastIsEmitted(env, leaves, k) {
      forall n ensures Lookup(props, n) == JsonField(env, leaves, n) {
        var k := TheLastFieldPrevails(env, fields, r, n);
        if Lookup(props, n).Some? {
          NameMatches(env, fields, r, k);
        } else {
          assert !(exists j :: 0 <= j < |leaves| && leaves[j].name == n);
          NoNameNoField(env, leaves, n);
        }
      }
    }
  }

  lemma NameMatches(env: Env, fields: seq<Field>, r: nat, k: int)
    requires WellFormed(env) && FitsFields(env, fields, r) && Prevails(FieldsLeaves(env, fields, r, 0), k)
    ensures var leaves, props := FieldsLeaves(env, fields, r, 0), FieldsGen(env, fields, r, EMPTY).props;
            && 0 <= k < |leaves|
            && (Lookup(props, leaves[k].name) == JsonField(env, leaves, leaves[k].name) <==> LastIsEmitted(env, leaves, k))
  {
    hide WellFormed, FieldsGen, FieldsLeaves, Lookup, Dominates;
    var leaves := FieldsLeaves(env, fields, r, 0);
    var n := leaves[k].name;
    var j := TheLastFieldPrevails(env, fields, r, n);
    assert j == k;
    if m :| Emits(leaves, n, m) {
      JsonFieldIs(env, leaves, n, m);
      forall i | Emits(leaves, n, i) ensures i == m {
        OneDominates(leaves, n, i, m);
      }
    }
  }

  lemma NoNameNoField(env: Env, leaves: seq<Leaf>, n: string)
    requires WellFormed(env) && Fit(env, leaves)
    requires forall k :: 0 <= k < |leaves| ==> leaves[k].name != n
    ensures JsonField(env, leaves, n) == None
  {}

  // ----- what is required ----------------------------------------------------

  ghost predicate Distinct(names: seq<string>) {
    forall i, j :: 0 <= i < j < |names| ==> names[i] != names[j]
  }

  /** Two mandatory fields, promoted or not, share a name. */
  ghost predicate TwoShare(leaves: seq<Leaf>) {
    exists i, j :: 0 <= i < j < |leaves| && leaves[i].mandatory && leaves[j].mandatory && leaves[i].name == leaves[j].name
  }

  lemma {:induction false} MandatoryHas(leaves: seq<Leaf>, n: string)
    ensures n in Mandatory(leaves) <==> exists k :: 0 <= k < |leaves| && leaves[k].mandatory && leaves[k].name == n
  {
    if leaves != [] {
      var m := |leaves| - 1;
      MandatoryHas(leaves[..m], n);
      if k :| 0 <= k < |leaves| && leaves[k].mandatory && leaves[k].name == n {
        assert k < m ==> leaves[..m][k] == leaves[k];
      }
      if k :| 0 <= k < m && leaves[..m][k].mandatory && leaves[..m][k].name == n {
        assert leaves[k] == leaves[..m][k];
      }
    }
  }

  lemma DistinctSnoc(names: seq<string>, n: string)
    ensures Distinct(names + [n]) <==> Distinct(names) && n !in names
  {
    var all := names + [n];
    assert forall i :: 0 <= i < |names| ==> all[i] == names[i];
    if n in names {
      var i :| 0 <= i < |names| && names[i] == n;
      assert all[i] == all[|names|];
    }
  }

  lemma TwoShareSnoc(leaves: seq<Leaf>, last: Leaf)
    ensures TwoShare(leaves + [last]) <==>
            TwoShare(leaves) || (last.mandatory && exists k :: 0 <= k < |leaves| && leaves[k].mandatory && leaves[k].name == last.name)
  {
    var all := leaves + [last];
    assert forall i :: 0 <= i < |leaves| ==> all[i] == leaves[i];
    assert all[|leaves|] == last;
  }

  lemma {:induction false} RepeatsExactlyWhenTwoShare(leaves: seq<Leaf>)
    ensures Distinct(Mandatory(leaves)) <==> !TwoShare(leaves)
  {
    if leaves != [] {
      var m := |leaves| - 1;
      var init, last := leaves[..m], leaves[m];
      assert leaves == init + [last];
      RepeatsExactlyWhenTwoShare(init);
      TwoShareSnoc(init, last);
      MandatoryHas(init, last.name);
      DistinctSnoc(Mandatory(init), last.name);
      assert Mandatory(init) + [] == Mandatory(init);
      hide TwoShare, Distinct;
    }
  }

  /** A name is required once for every mandatory field of that name, so twice exactly when two share it. */
  lemma RequiredExactly(env: Env, fields: seq<Field>, r: nat)
    requires WellFormed(env) && FitsFields(env, fields, r)
    ensures var leaves, required := FieldsLeaves(env, fields, r, 0), FieldsGen(env, fields, r, EMPTY).required;
            && required == Mandatory(leaves)
            && (Distinct(required) <==> !TwoShare(leaves))
            && forall n :: n in required <==> exists k :: 0 <= k < |leaves| && leaves[k].mandatory && leaves[k].name == n
  {
    hide WellFormed, FieldsGen, FieldsLeaves;
    var leaves := FieldsLeaves(env, fields, r, 0);
    FieldsAddLeaves(env, fields, r, EMPTY, 0);
    assert EMPTY.required + Mandatory(leaves) == Mandatory(leaves);
    RepeatsExactlyWhenTwoShare(leaves);
    forall n ensures n in Mandatory(leaves) <==> exists k :: 0 <= k < |leaves| && leaves[k].mandatory && leaves[k].name == n {
      MandatoryHas(leaves, n);
    }
  }

  // ----- an instance ----------------------------------------------------------

  const NO_TAGS := Tags("", "", "", "", "", "", "")

  function Plainly(name: string, t: Type): Field {
    Field(name, true, false, "", false, false, NO_TAGS, t)
  }

  function Embedding(fields: seq<Field>): Field {
    Field("E", true, true, "", false, false, NO_TAGS, Struct(fields))
  }

  lemma OneField(env: Env, f: Field, r: nat, depth: nat)
    requires WellFormed(env) && FitsField(env, f, r)
    ensures FitsFields(env, [f], r) && FieldsLeaves(env, [f], r, depth) == FieldLeaves(env, f, r, depth)
  {
    assert [f][..0] == [];
  }

  lemma EmbeddingFits(env: Env, f: Field, g: Field, r: nat)
    requires WellFormed(env) && FitsField(env, f, r) && FitsField(env, g, r)
    ensures FitsField(env, Embedding([g]), r) && FitsFields(env, [f, Embedding([g])], r)
    ensures FieldsLeaves(env, [f, Embedding([g])], r, 0) == FieldLeaves(env, f, r, 0) + FieldLeaves(env, g, r, 1)
  {
    hide WellFormed, FieldLeaves, FitsType;
    var e := Embedding([g]);
    OneField(env, f, r, 0);
    OneField(env, g, r, 1);
    StructFits(env, g, r);
    var fields := [f, e];
    assert forall i :: 0 <= i < |fields| ==> FitsField(env, fields[i], r);
    assert fields[..1] == [f];
  }

  lemma StructFits(env: Env, g: Field, r: nat)
    requires WellFormed(env) && FitsFields(env, [g], r)
    ensures FitsField(env, Embedding([g]), r)
    ensures FieldLeaves(env, Embedding([g]), r, 0) == FieldsLeaves(env, [g], r, 1)
  {
    hide WellFormed, FitsFields, FieldsLeaves;
    assert FitsType(env, Struct([g]), r);
  }

  /**
   An embedded struct takes over the name of a field declared before it, which is then required
   twice; encoding/json emits the field declared before it.
   */
  lemma EmbeddedTakesOver(env: Env, name: string, own: Type, promoted: Type, r: nat)
    requires WellFormed(env) && FitsType(env, own, r) && FitsType(env, promoted, r) && name != "" && name != "-"
    ensures var fields := [Plainly(name, own), Embedding([Plainly(name, promoted)])];
            && FitsFields(env, fields, r)
            && Lookup(FieldsGen(env, fields, r, EMPTY).props, name)
               == Some(Dress(TypeGen(env, promoted, r).schema, Plainly(name, promoted)))
            && FieldsGen(env, fields, r, EMPTY).required == [name, name]
            && JsonField(env, FieldsLeaves(env, fields, r, 0), name) == Some(Dress(TypeGen(env, own, r).schema, Plainly(name, own)))
  {
    hide TypeGen, WellFormed, FitsType, FieldsGen, FieldsLeaves, FitsFields, Lookup;
    var f, g := Plainly(name, own), Plainly(name, promoted);
    EmbeddingFits(env, f, g, r);
    var fields := [f, Embedding([g])];
    var leaves := FieldsLeaves(env, fields, r, 0);
    var a, b := LeafOf(f, r, 0), LeafOf(g, r, 1);
    assert leaves == [a, b];
    TwoOfAName(a, b);
    assert Emits(leaves, name, 0);
    JsonFieldIs(env, leaves, name, 0);
    hide Mandatory, Prevails, Dress;
    RequiredExactly(env, fields, r);
    var k := TheLastFieldPrevails(env, fields, r, name);
    assert leaves[1].name == name && k == 1;
  }

  lemma TwoOfAName(a: Leaf, b: Leaf)
    requires a.name == b.name && a.mandatory && b.mandatory
    ensures Mandatory([a, b]) == [a.name, b.name] && Prevails([a, b], 1)
  {
    assert [a][..0] == [];
    assert Mandatory([a]) == [a.name];
    assert [a, b][..1] == [a] && [a, b][1] == b;
  }
}
