/**
 * Reading `@noAlias(allow: N)` limits out of a schema. Both drafts of the rule
 * share `processDirective` word for word and fill their limit table with the
 * same two nested loops; they differ only in how a field's key is spelt,
 * which is the `fieldKey` parameter below.
 */
module Directives {
  import opened Js
  import opened GraphQL

  /** `dir.arguments[0]` parsed, or the default when the directive has no argument. */
  function ArgumentValue(d: Directive, defaultValue: int): Num {
    if |d.arguments| > 0 then d.arguments[0] else Int(defaultValue)
  }

  /** `i` is the position of the first directive called `name`. */
  predicate IsFirstMatch(ds: seq<Directive>, name: string, i: int) {
    0 <= i < |ds| && ds[i].name == name && forall j :: 0 <= j < i ==> ds[j].name != name
  }

  /**
   * `processDirective`: the value of the first directive called
   * `directiveName`, nothing when no directive matches or the list is absent.
   */
  function ProcessDirective(directiveName: string, defaultValue: int, directives: Option<seq<Directive>>): (r: Option<Num>)
    ensures directives.None? ==> r.None?
    ensures directives.Some? ==>
      (r.None? <==> forall i :: 0 <= i < |directives.value| ==> directives.value[i].name != directiveName)
    ensures directives.Some? ==> forall i :: IsFirstMatch(directives.value, directiveName, i) ==>
      r == Some(ArgumentValue(directives.value[i], defaultValue))
    decreases if directives.Some? then |directives.value| else 0
  {
    match directives
    case None => None
    case Some(ds) =>
      if ds == [] then None
      else if ds[0].name == directiveName then Some(ArgumentValue(ds[0], defaultValue))
      else
        var r := ProcessDirective(directiveName, defaultValue, Some(ds[1..]));
        assert forall i :: IsFirstMatch(ds, directiveName, i) ==> IsFirstMatch(ds[1..], directiveName, i - 1);
        r
  }

  /** The fields `Object.values(astNode.fields)` visits, none without an AST. */
  function Fields(t: ObjectType): seq<FieldDefinition> {
    if t.astNode.Some? && t.astNode.value.fields.Some? then t.astNode.value.fields.value else []
  }

  /** The limit a type-level directive gives, before the truthiness test. */
  function TypeLimit(defaultAllow: int, directiveName: string, t: ObjectType): Option<Num> {
    ProcessDirective(directiveName, defaultAllow, TypeDirectives(t))
  }

  /** The limit a field-level directive gives, before the truthiness test. */
  function FieldLimit(defaultAllow: int, directiveName: string, f: FieldDefinition): Option<Num> {
    ProcessDirective(directiveName, defaultAllow, f.directives)
  }

  /** The inner loop over fields, after the first `|fs|` iterations. */
  function AddFields(m: map<string, int>, defaultAllow: int, directiveName: string, typeName: string,
                     fs: seq<FieldDefinition>, fieldKey: (string, string) -> string): map<string, int>
  {
    if fs == [] then m
    else
      var before := AddFields(m, defaultAllow, directiveName, typeName, fs[..|fs| - 1], fieldKey);
      var f := fs[|fs| - 1];
      var v := FieldLimit(defaultAllow, directiveName, f);
      if TruthyNum(v) then before[fieldKey(typeName, f.name) := v.value.n] else before
  }

  /** One iteration of the outer loop: the type-level entry, then its fields. */
  function AddType(m: map<string, int>, defaultAllow: int, directiveName: string, t: Option<ObjectType>,
                   fieldKey: (string, string) -> string): map<string, int>
  {
    if t.None? then m
    else
      var v := TypeLimit(defaultAllow, directiveName, t.value);
      var withType := if TruthyNum(v) then m[t.value.name := v.value.n] else m;
      AddFields(withType, defaultAllow, directiveName, t.value.name, Fields(t.value), fieldKey)
  }

  /** The table after the outer loop has visited `types` in order. */
  function SchemaTable(defaultAllow: int, directiveName: string, types: seq<Option<ObjectType>>,
                       fieldKey: (string, string) -> string): map<string, int>
  {
    if types == [] then map[]
    else AddType(SchemaTable(defaultAllow, directiveName, types[..|types| - 1], fieldKey),
                 defaultAllow, directiveName, types[|types| - 1], fieldKey)
  }

  /** Field `j` of `fs` carries a truthy limit `v` stored under key `k`. */
  ghost predicate FieldProduces(defaultAllow: int, directiveName: string, typeName: string, fs: seq<FieldDefinition>,
                                fieldKey: (string, string) -> string, k: string, v: int)
  {
    exists j :: 0 <= j < |fs| && k == fieldKey(typeName, fs[j].name) &&
      TruthyNum(FieldLimit(defaultAllow, directiveName, fs[j])) && v == FieldLimit(defaultAllow, directiveName, fs[j]).value.n
  }

  /** Type `t`, or one of its fields, carries a truthy limit `v` stored under key `k`. */
  ghost predicate TypeProduces(defaultAllow: int, directiveName: string, t: ObjectType,
                               fieldKey: (string, string) -> string, k: string, v: int)
  {
    || (k == t.name && TruthyNum(TypeLimit(defaultAllow, directiveName, t)) && v == TypeLimit(defaultAllow, directiveName, t).value.n)
    || FieldProduces(defaultAllow, directiveName, t.name, Fields(t), fieldKey, k, v)
  }

  /** Some present root type of `types` produces the entry `k -> v`. */
  ghost predicate Produces(defaultAllow: int, directiveName: string, types: seq<Option<ObjectType>>,
                           fieldKey: (string, string) -> string, k: string, v: int)
  {
    exists i :: 0 <= i < |types| && types[i].Some? && TypeProduces(defaultAllow, directiveName, types[i].value, fieldKey, k, v)
  }

  lemma {:induction false} AddFieldsEntries(m: map<string, int>, defaultAllow: int, directiveName: string, typeName: string,
                                            fs: seq<FieldDefinition>, fieldKey: (string, string) -> string)
    ensures var r := AddFields(m, defaultAllow, directiveName, typeName, fs, fieldKey);
      && m.Keys <= r.Keys
      && (forall k :: k in r ==> (k in m && r[k] == m[k]) || FieldProduces(defaultAllow, directiveName, typeName, fs, fieldKey, k, r[k]))
      && (forall k, v :: FieldProduces(defaultAllow, directiveName, typeName, fs, fieldKey, k, v) ==> k in r)
  {
    if fs != [] {
      var init, f := fs[..|fs| - 1], fs[|fs| - 1];
      AddFieldsEntries(m, defaultAllow, directiveName, typeName, init, fieldKey);
      var r := AddFields(m, defaultAllow, directiveName, typeName, fs, fieldKey);
      var before := AddFields(m, defaultAllow, directiveName, typeName, init, fieldKey);
      var v := FieldLimit(defaultAllow, directiveName, f);
      var fk := fieldKey(typeName, f.name);
      assert r == if TruthyNum(v) then before[fk := v.value.n] else before;
      forall k | k in r
        ensures (k in m && r[k] == m[k]) || FieldProduces(defaultAllow, directiveName, typeName, fs, fieldKey, k, r[k])
      {
        if k == fk && TruthyNum(v) {
          assert fs[|fs| - 1] == f;
        } else {
          assert k in before && r[k] == before[k];
          if !(k in m && r[k] == m[k]) {
            assert FieldProduces(defaultAllow, directiveName, typeName, init, fieldKey, k, r[k]);
            var j :| 0 <= j < |init| && k == fieldKey(typeName, init[j].name) &&
              TruthyNum(FieldLimit(defaultAllow, directiveName, init[j])) && r[k] == FieldLimit(defaultAllow, directiveName, init[j]).value.n;
            assert init[j] == fs[j];
          }
        }
      }
      forall k, v' | FieldProduces(defaultAllow, directiveName, typeName, fs, fieldKey, k, v') ensures k in r {
        var j :| 0 <= j < |fs| && k == fieldKey(typeName, fs[j].name) &&
          TruthyNum(FieldLimit(defaultAllow, directiveName, fs[j])) && v' == FieldLimit(defaultAllow, directiveName, fs[j]).value.n;
        if j < |fs| - 1 {
          assert init[j] == fs[j];
          assert FieldProduces(defaultAllow, directiveName, typeName, init, fieldKey, k, v');
        }
      }
    }
  }

  lemma AddTypeEntries(m: map<string, int>, defaultAllow: int, directiveName: string, t: ObjectType,
                       fieldKey: (string, string) -> string)
    ensures var r := AddType(m, defaultAllow, directiveName, Some(t), fieldKey);
      && m.Keys <= r.Keys
      && (forall k :: k in r ==> (k in m && r[k] == m[k]) || TypeProduces(defaultAllow, directiveName, t, fieldKey, k, r[k]))
      && (forall k, v :: TypeProduces(defaultAllow, directiveName, t, fieldKey, k, v) ==> k in r)
  {
    var v := TypeLimit(defaultAllow, directiveName, t);
    var withType := if TruthyNum(v) then m[t.name := v.value.n] else m;
    AddFieldsEntries(withType, defaultAllow, directiveName, t.name, Fields(t), fieldKey);
  }

  /** `r` holds exactly the produced keys, each with a produced, truthy value. */
  ghost predicate DescribesScan(defaultAllow: int, directiveName: string, types: seq<Option<ObjectType>>,
                                fieldKey: (string, string) -> string, r: map<string, int>)
  {
    && (forall k :: k in r ==> Produces(defaultAllow, directiveName, types, fieldKey, k, r[k]) && r[k] != 0)
    && (forall k, v :: Produces(defaultAllow, directiveName, types, fieldKey, k, v) ==> k in r)
  }

  /**
   * The schema table holds exactly the keys some root type or root field
   * produces with a truthy directive value, and each stored value is one
   * such produced value (so it is never 0: falsy values are not stored).
   */
  lemma {:induction false} SchemaTableEntries(defaultAllow: int, directiveName: string, types: seq<Option<ObjectType>>,
                                              fieldKey: (string, string) -> string)
    ensures DescribesScan(defaultAllow, directiveName, types, fieldKey, SchemaTable(defaultAllow, directiveName, types, fieldKey))
  {
    if types != [] {
      var init, last := types[..|types| - 1], types[|types| - 1];
      SchemaTableEntries(defaultAllow, directiveName, init, fieldKey);
      var before := SchemaTable(defaultAllow, directiveName, init, fieldKey);
      var r := SchemaTable(defaultAllow, directiveName, types, fieldKey);
      assert DescribesScan(defaultAllow, directiveName, init, fieldKey, before);
      if last.Some? {
        AddTypeEntries(before, defaultAllow, directiveName, last.value, fieldKey);
      }
      forall k | k in r ensures Produces(defaultAllow, directiveName, types, fieldKey, k, r[k]) && r[k] != 0 {
        if last.Some? && TypeProduces(defaultAllow, directiveName, last.value, fieldKey, k, r[k]) {
          assert types[|types| - 1] == last;
        } else {
          assert k in before && r[k] == before[k];
          assert Produces(defaultAllow, directiveName, init, fieldKey, k, r[k]);
          var i :| 0 <= i < |init| && init[i].Some? && TypeProduces(defaultAllow, directiveName, init[i].value, fieldKey, k, r[k]);
          assert types[i] == init[i];
        }
      }
      forall k, v | Produces(defaultAllow, directiveName, types, fieldKey, k, v) ensures k in r {
        var i :| 0 <= i < |types| && types[i].Some? && TypeProduces(defaultAllow, directiveName, types[i].value, fieldKey, k, v);
        if i < |types| - 1 {
          assert types[i] == init[i];
          assert Produces(defaultAllow, directiveName, init, fieldKey, k, v);
        }
      }
    }
  }

  /** Some directive of the (possibly absent) list is called `name`. */
  predicate HasDirective(directives: Option<seq<Directive>>, name: string) {
    directives.Some? && exists i :: 0 <= i < |directives.value| && directives.value[i].name == name
  }

  /** No present root type, and none of its fields, carries the directive `name`. */
  predicate NoDirective(name: string, types: seq<Option<ObjectType>>) {
    forall i :: 0 <= i < |types| && types[i].Some? ==>
      && !HasDirective(TypeDirectives(types[i].value), name)
      && forall j :: 0 <= j < |Fields(types[i].value)| ==> !HasDirective(Fields(types[i].value)[j].directives, name)
  }

  /** A schema that never uses the directive yields an empty limit table, whatever the default. */
  lemma NoDirectiveEmptyTable(defaultAllow: int, directiveName: string, types: seq<Option<ObjectType>>,
                              fieldKey: (string, string) -> string)
    requires NoDirective(directiveName, types)
    ensures SchemaTable(defaultAllow, directiveName, types, fieldKey) == map[]
  {
    var r := SchemaTable(defaultAllow, directiveName, types, fieldKey);
    SchemaTableEntries(defaultAllow, directiveName, types, fieldKey);
    forall i | 0 <= i < |types| && types[i].Some?
      ensures TypeLimit(defaultAllow, directiveName, types[i].value).None?
      ensures forall j :: 0 <= j < |Fields(types[i].value)| ==> FieldLimit(defaultAllow, directiveName, Fields(types[i].value)[j]).None?
    {
    }
    assert forall k :: k !in r;
  }
}
