/**
 * The current version of the rule (the `no-alias` package). Limits come
 * either from the `permissions` option or, when it is absent, from
 * `@noAlias` directives on the Query and Mutation types and their fields;
 * a field is counted under `"Type.field"` and its limit is the field entry
 * when truthy, otherwise the type-wide entry `"Type"`.
 */
module NoAlias {
  import opened Js
  import opened GraphQL
  import opened Directives
  import opened Permissions
  import opened Counting
  import opened Visits

  // ----- Options and the directive declaration -----

  /** The options object; every member may be left out. */
  datatype Config = Config(permissions: Option<Perm>, defaultAllow: Option<int>,
                           directiveName: Option<string>, errorFn: Option<ErrorFn>)

  /** The options after the defaults have been spread under them. */
  datatype Options = Options(permissions: Option<Perm>, defaultAllow: int, directiveName: string, errorFn: ErrorFn)

  /** What `createValidation` returns; `validation(context)` is the `Validator` class below. */
  datatype Validation = Validation(typeDefs: string, options: Options)

  const DefaultAllow: int := 1
  const DefaultDirectiveName: string := "noAlias"

  /** The end of the directive declaration: `(allow: Int = <defaultAllow>) on OBJECT | FIELD_DEFINITION`. */
  function DeclarationTail(defaultAllow: int): string {
    "(allow: Int = " + IntToString(defaultAllow) + ") on OBJECT | FIELD_DEFINITION"
  }

  /**
   * `directive @<name>(allow: Int = <defaultAllow>) on OBJECT | FIELD_DEFINITION`:
   * the declaration names the directive and renders the default in decimal.
   */
  function TypeDefs(directiveName: string, defaultAllow: int): (r: string)
    ensures |r| > 11 + |directiveName| && r[..11] == "directive @" && r[11..11 + |directiveName|] == directiveName
    ensures r[11 + |directiveName|..] == DeclarationTail(defaultAllow)
  {
    var head, tail := "directive @", DeclarationTail(defaultAllow);
    var r := head + directiveName + tail;
    assert r == head + (directiveName + tail);
    r
  }

  /** The opening of the default message: `Allowed number of calls for T->f`. */
  function MessageHead(typeName: string, fieldName: string): string {
    "Allowed number of calls for " + typeName + "->" + fieldName
  }

  /** The closing of the default message: `(max: m)`. */
  function MessageTail(maxAllowed: int): string {
    "(max: " + IntToString(maxAllowed) + ")"
  }

  /**
   * `createErrorMsg`: a diagnostic pointing at the field whose message opens
   * with the type and field and closes with the limit.
   */
  function CreateErrorMsg(typeName: string, fieldName: string, maxAllowed: int, node: FieldNode): (r: ErrorResult)
    ensures r.Error? && r.diagnostic.node == Some(node)
    ensures var msg, head, tail := r.diagnostic.message, MessageHead(typeName, fieldName), MessageTail(maxAllowed);
      && |msg| == |head| + |" has been exceeded "| + |tail|
      && msg[..|head|] == head
      && msg[|head|..|msg| - |tail|] == " has been exceeded "
      && msg[|msg| - |tail|..] == tail
  {
    var head, tail := MessageHead(typeName, fieldName), MessageTail(maxAllowed);
    var msg := head + " has been exceeded " + tail;
    assert msg == head + (" has been exceeded " + tail);
    Error(Diagnostic(msg, Some(node)))
  }

  /**
   * `createValidation`: each option is the supplied one when given and the
   * default otherwise (1, "noAlias", `createErrorMsg`, no permissions), and the
   * directive declaration is built from the resulting name and default.
   */
  function CreateValidation(config: Option<Config>): (v: Validation)
    ensures v.options.defaultAllow == if config.Some? && config.value.defaultAllow.Some? then config.value.defaultAllow.value else 1
    ensures v.options.directiveName == if config.Some? && config.value.directiveName.Some? then config.value.directiveName.value else "noAlias"
    ensures v.options.permissions == if config.Some? then config.value.permissions else None
    ensures v.typeDefs == TypeDefs(v.options.directiveName, v.options.defaultAllow)
    ensures config.Some? && config.value.errorFn.Some? ==> v.options.errorFn == config.value.errorFn.value
    ensures !(config.Some? && config.value.errorFn.Some?) ==>
      forall t, f, m, n :: v.options.errorFn(t, f, m, n) == CreateErrorMsg(t, f, m, n)
  {
    var c := config.GetOr(Config(None, None, None, None));
    var options := Options(c.permissions, c.defaultAllow.GetOr(DefaultAllow), c.directiveName.GetOr(DefaultDirectiveName),
                           c.errorFn.GetOr(CreateErrorMsg));
    Validation(TypeDefs(options.directiveName, options.defaultAllow), options)
  }

  /**
   * With no options the rule declares the directive `noAlias` with the
   * default `allow` rendered as `1`, and reports with `createErrorMsg`.
   */
  lemma CreateValidationDefaults()
    ensures CreateValidation(None).typeDefs == TypeDefs("noAlias", 1) && IntToString(1) == "1"
    ensures CreateValidation(None).options.permissions == None
    ensures forall t, f, m, n :: CreateValidation(None).options.errorFn(t, f, m, n) == CreateErrorMsg(t, f, m, n)
  {
    assert NatToString(1) == "1";
  }

  // ----- Keys and the limit lookup -----

  /** The key a field is counted under, and looked up first: `Type.field`. */
  function FieldKey(typeName: string, fieldName: string): string {
    typeName + "." + fieldName
  }

  const FieldKeyOf: (string, string) -> string := (t, f) => FieldKey(t, f)

  /**
   * `maxAllowedData.get(fieldKey) || maxAllowedData.get(typeKey)`: the field
   * entry wins when it is truthy; otherwise the type-wide entry is used.
   */
  function MaxAllowed(table: map<string, int>, typeName: string, fieldName: string): (r: Option<int>)
    ensures Truthy(Get(table, FieldKey(typeName, fieldName))) ==> r == Get(table, FieldKey(typeName, fieldName))
    ensures !Truthy(Get(table, FieldKey(typeName, fieldName))) ==> r == Get(table, typeName)
    ensures Truthy(r) <==> Truthy(Get(table, FieldKey(typeName, fieldName))) || Truthy(Get(table, typeName))
  {
    var byField := Get(table, FieldKey(typeName, fieldName));
    if Truthy(byField) then byField else Get(table, typeName)
  }

  /**
   * `typeof errorResult === 'string' ? new GraphQLError(errorResult) : errorResult`:
   * a message becomes a diagnostic carrying exactly that message; a diagnostic
   * is passed on unchanged.
   */
  function ToDiagnostic(e: ErrorResult): (d: Diagnostic)
    ensures e.Text? ==> d.message == e.text && d.node == None
    ensures e.Error? ==> d == e.diagnostic
  {
    match e
    case Text(msg) => Diagnostic(msg, None)
    case Error(diagnostic) => diagnostic
  }

  // ----- One run -----

  /** What `checkCount` computes for a field under a root type before touching the maps. */
  function ProbeFor(table: map<string, int>, errorFn: ErrorFn, typeName: string, node: FieldNode): (p: Probe<Diagnostic>)
    ensures p.key == FieldKey(typeName, node.name) && p.maxAllowed == MaxAllowed(table, typeName, node.name)
  {
    var maxAllowed := MaxAllowed(table, typeName, node.name);
    Probe(FieldKey(typeName, node.name), maxAllowed,
          ToDiagnostic(errorFn(typeName, node.name, maxAllowed.GetOr(0), node)))
  }

  /** The probes of one run, over its limit table and error function. */
  function ProberOf(table: map<string, int>, errorFn: ErrorFn): Prober<Diagnostic> {
    (t, n) => ProbeFor(table, errorFn, t, n)
  }

  /**
   * The alias limit, per field of a root type, over a whole document. Let
   * `m` be the limit the lookup finds and `k` the number of times the field
   * is selected under that type (each alias is one more time), and let
   * `a = max(m, 0)` be the allowance. With a truthy `m`: the stored count is
   * `min(k, a)`, the field is flagged and reported exactly when `k > a`, and
   * then exactly once, with the diagnostic made for the `(a+1)`-th selection
   * (the first one when `m` is negative). With no truthy limit the field is
   * never counted nor reported.
   */
  lemma AliasLimit(table: map<string, int>, errorFn: ErrorFn, evs: seq<FieldEvent>, typeName: string, fieldName: string)
    requires IsRootName(typeName)
    ensures var s := RunEvents(ProberOf(table, errorFn), evs);
      var key, occ, limit := FieldKey(typeName, fieldName), Occurrences(evs, typeName, fieldName), MaxAllowed(table, typeName, fieldName);
      if Truthy(limit) then
        var allowed := Allowance(limit.value);
        && CountOf(s, key) == (if |occ| < allowed then |occ| else allowed)
        && (Reported(s, key) <==> |occ| > allowed)
        && ReportsFor(s.reports, key) ==
             if |occ| > allowed then [Report(key, ToDiagnostic(errorFn(typeName, fieldName, limit.value, occ[allowed])))] else []
      else
        key !in s.counts && key !in s.errorMap && ReportsFor(s.reports, key) == []
  {
    var probe, limit := ProberOf(table, errorFn), MaxAllowed(table, typeName, fieldName);
    assert KeyedBy(probe, ".");
    FieldOutcome(probe, ".", evs, typeName, fieldName, limit);
    var occ := Occurrences(evs, typeName, fieldName);
    if Truthy(limit) && |occ| > Allowance(limit.value) {
      var n := occ[Allowance(limit.value)];
      assert probe(typeName, n).report == ToDiagnostic(errorFn(typeName, fieldName, limit.value, n));
    }
  }

  /**
   * A type-wide entry gives every field of that type its own budget: with
   * `{Query: {'*': n}}` each field under Query may be selected `n` times,
   * and the count of one field does not use up another's.
   */
  lemma TypeDefaultIsPerField(n: int, errorFn: ErrorFn, evs: seq<FieldEvent>, fieldName: string)
    requires n != 0
    ensures var s := RunEvents(ProberOf(Flatten(Group([Entry("Query", Group([Entry("*", Leaf(n))]))])), errorFn), evs);
      var key, k := FieldKey("Query", fieldName), |Occurrences(evs, "Query", fieldName)|;
      && CountOf(s, key) == (if k < Allowance(n) then k else Allowance(n))
      && (Reported(s, key) <==> k > Allowance(n))
  {
    var table := Flatten(Group([Entry("Query", Group([Entry("*", Leaf(n))]))]));
    FlattenTypeDefault("Query", n);
    assert FieldKey("Query", fieldName) !in table by {
      assert |FieldKey("Query", fieldName)| > |"Query"|;
    }
    AliasLimit(table, errorFn, evs, "Query", fieldName);
  }

  /** Without any limit in the table, a document leaves the counters fresh and reports nothing. */
  lemma EmptyTableNoReports(errorFn: ErrorFn, evs: seq<FieldEvent>)
    ensures RunEvents(ProberOf(map[], errorFn), evs) == Fresh()
  {
    NoLimitNoChange(ProberOf(map[], errorFn), evs);
  }

  /**
   * Without `permissions` and without the directive anywhere on the root
   * types of the schema, no selection is ever counted or reported.
   */
  lemma NoDirectiveNoReports(defaultAllow: int, directiveName: string, schema: Schema, errorFn: ErrorFn, evs: seq<FieldEvent>)
    requires NoDirective(directiveName, [schema.queryType, schema.mutationType])
    ensures var table := SchemaTable(defaultAllow, directiveName, [schema.queryType, schema.mutationType], FieldKeyOf);
      RunEvents(ProberOf(table, errorFn), evs) == Fresh()
  {
    NoDirectiveEmptyTable(defaultAllow, directiveName, [schema.queryType, schema.mutationType], FieldKeyOf);
    EmptyTableNoReports(errorFn, evs);
  }

  // ----- Building the limit table -----

  /**
   * `buildPermissionTableFromSchema`: for each root type in turn, the
   * type-level directive value under the type name, then each field's value
   * under `Type.field`, falsy values left out.
   */
  method BuildPermissionTableFromSchema(defaultAllow: int, directiveName: string, types: seq<Option<ObjectType>>)
    returns (maxAllowed: map<string, int>)
    ensures maxAllowed == SchemaTable(defaultAllow, directiveName, types, FieldKeyOf)
  {
    maxAllowed := map[];
    for i := 0 to |types|
      invariant maxAllowed == SchemaTable(defaultAllow, directiveName, types[..i], FieldKeyOf)
    {
      assert types[..i + 1][..i] == types[..i];
      var graphType := types[i];
      var value := if graphType.Some? then ProcessDirective(directiveName, defaultAllow, TypeDirectives(graphType.value)) else None;
      if TruthyNum(value) {
        maxAllowed := maxAllowed[graphType.value.name := value.value.n];
      }
      if graphType.Some? && graphType.value.astNode.Some? && graphType.value.astNode.value.fields.Some? {
        var fields := graphType.value.astNode.value.fields.value;
        ghost var withType := maxAllowed;
        for j := 0 to |fields|
          invariant maxAllowed == AddFields(withType, defaultAllow, directiveName, graphType.value.name, fields[..j], FieldKeyOf)
        {
          assert fields[..j + 1][..j] == fields[..j];
          var field := fields[j];
          var fieldValue := ProcessDirective(directiveName, defaultAllow, field.directives);
          if TruthyNum(fieldValue) {
            maxAllowed := maxAllowed[FieldKey(graphType.value.name, field.name) := fieldValue.value.n];
          }
        }
        assert fields[..|fields|] == fields;
      }
    }
    assert types[..|types|] == types;
  }

  // ----- The visitor of one validation run -----

  /**
   * `createFieldValidation` and the closure it returns: the limit table of
   * this run, the two maps the closure owns, and the diagnostics it has
   * handed to `context.reportError`. The ghost `log` records which key each
   * diagnostic was reported for, and `visited` the field events seen so far.
   */
  class Validator {
    const allowedCount: map<string, int>
    const errorFn: ErrorFn
    var currentCount: map<string, int>
    var errorMap: map<string, bool>
    var reported: seq<Diagnostic>
    ghost var log: seq<Report<Diagnostic>>
    ghost var visited: seq<FieldEvent>

    ghost predicate Valid()
      reads this
    {
      reported == Values(log)
    }

    ghost function State(): Counters<Diagnostic>
      reads this
    {
      Counters(currentCount, errorMap, log)
    }

    /** The maps are what running the visited events from fresh maps gives. */
    ghost predicate Ran()
      reads this
    {
      State() == RunEvents(ProberOf(allowedCount, errorFn), visited)
    }

    /**
     * The table comes from `permissions` alone when it is given, and from the
     * schema's Query and Mutation types alone otherwise; the maps start empty.
     */
    constructor(schema: Schema, directiveName: string, defaultAllow: int, errorFn: ErrorFn, permissions: Option<Perm>)
      ensures Valid() && State() == Fresh() && reported == []
      ensures visited == [] && Ran()
      ensures forall t, f, m, n :: this.errorFn(t, f, m, n) == errorFn(t, f, m, n)
      ensures permissions.Some? ==> allowedCount == Flatten(permissions.value)
      ensures permissions.None? ==>
        allowedCount == SchemaTable(defaultAllow, directiveName, [schema.queryType, schema.mutationType], FieldKeyOf)
    {
      var table;
      if permissions.Some? {
        table := BuildPermissionTableFromConfig(permissions.value);
      } else {
        table := BuildPermissionTableFromSchema(defaultAllow, directiveName, [schema.queryType, schema.mutationType]);
      }
      allowedCount := table;
      this.errorFn := errorFn;
      currentCount := map[];
      errorMap := map[];
      reported := [];
      log := [];
      visited := [];
    }

    /**
     * The "leave Field" callback: only fields whose parent is Query or
     * Mutation are checked, so after any sequence of visits the maps are those
     * of the run over that sequence (and `AliasLimit` says what they hold).
     */
    method OnFieldLeave(ev: FieldEvent)
      requires Valid() && Ran()
      modifies this
      ensures Valid() && State() == Step(ProberOf(allowedCount, errorFn), old(State()), ev)
      ensures visited == old(visited) + [ev] && Ran()
    {
      var parentTypeName := ev.parentType;
      if parentTypeName == Some("Query") || parentTypeName == Some("Mutation") {
        CheckCount(parentTypeName.value, ev.node);
      }
      visited := visited + [ev];
      assert visited[..|visited| - 1] == old(visited);
    }

    /** `checkCount` for one field under `typeName`. */
    method CheckCount(typeName: string, node: FieldNode)
      requires Valid()
      modifies this
      ensures Valid() && State() == Check(old(State()), ProbeFor(allowedCount, errorFn, typeName, node))
      ensures visited == old(visited)
    {
      var nodeName := node.name;
      var typeKey := typeName;
      var fieldKey := FieldKey(typeName, nodeName);
      var byField := Get(allowedCount, fieldKey);
      var maxAllowed := if Truthy(byField) then byField else Get(allowedCount, typeKey);
      if Truthy(maxAllowed) {
        var count := (if fieldKey in currentCount then currentCount[fieldKey] else 0) + 1;
        if count > maxAllowed.value {
          if !(fieldKey in errorMap && errorMap[fieldKey]) {
            var errorResult := errorFn(typeName, nodeName, maxAllowed.value, node);
            var diagnostic := if errorResult.Text? then Diagnostic(errorResult.text, None) else errorResult.diagnostic;
            reported := reported + [diagnostic];
            log := log + [Report(fieldKey, diagnostic)];
            errorMap := errorMap[fieldKey := true];
          }
          return;
        }
        currentCount := currentCount[fieldKey := count];
      }
    }
  }
}
