/**
 * The older version of the rule (`src/index.ts`). Limits come only from
 * `@noAlias` directives on the Query and Mutation types and their fields; a
 * field is counted, and its limit looked up, under `"Type-field"` alone.
 * The type-level value is still stored, under the bare type name, but no
 * lookup ever asks for it. Whatever `errorFn` returns is handed to
 * `reportError` as it is.
 */
module NoAliasDraft {
  import opened Js
  import opened GraphQL
  import opened Directives
  import opened Counting
  import opened Visits
  import NoAlias

  /** What `createValidation` returns; `validation(context)` is the `DraftValidator` class below. */
  datatype DraftValidation = DraftValidation(typeDefs: string, defaultAllow: int, directiveName: string, errorFn: ErrorFn)

  /**
   * `createValidation(defaultAllow = 1, directiveName = 'noAlias', errorFn?)`:
   * an argument left `undefined` takes its default, and the directive
   * declaration is built from the resulting name and default exactly as in
   * the current version.
   */
  function CreateValidation(defaultAllow: Option<int>, directiveName: Option<string>, errorFn: Option<ErrorFn>): (v: DraftValidation)
    ensures v.defaultAllow == if defaultAllow.Some? then defaultAllow.value else 1
    ensures v.directiveName == if directiveName.Some? then directiveName.value else "noAlias"
    ensures v.typeDefs == NoAlias.TypeDefs(v.directiveName, v.defaultAllow)
    ensures errorFn.Some? ==> v.errorFn == errorFn.value
    ensures errorFn.None? ==> forall t, f, m, n :: v.errorFn(t, f, m, n) == CreateErrorMsg(t, f, m, n)
  {
    var allow, name := defaultAllow.GetOr(1), directiveName.GetOr("noAlias");
    DraftValidation(NoAlias.TypeDefs(name, allow), allow, name, if errorFn.Some? then errorFn.value else CreateErrorMsg)
  }

  /**
   * `createErrorMsg`: a diagnostic with the same message as the current
   * version's, `Allowed number of calls for T->f has been exceeded (max: m)`,
   * but pointing at no node.
   */
  function CreateErrorMsg(typeName: string, fieldName: string, maxAllowed: int, node: FieldNode): (r: ErrorResult)
    ensures r.Error? && r.diagnostic.node == None
    ensures r.diagnostic.message == NoAlias.CreateErrorMsg(typeName, fieldName, maxAllowed, node).diagnostic.message
    ensures var msg, head, tail := r.diagnostic.message, NoAlias.MessageHead(typeName, fieldName), NoAlias.MessageTail(maxAllowed);
      && msg[..|head|] == head
      && msg[|head|..|msg| - |tail|] == " has been exceeded "
      && msg[|msg| - |tail|..] == tail
  {
    var msg := NoAlias.MessageHead(typeName, fieldName) + " has been exceeded " + NoAlias.MessageTail(maxAllowed);
    Error(Diagnostic(msg, None))
  }

  // ----- Keys and the limit lookup -----

  /** The key a field is counted and looked up under: `Type-field`. */
  function FieldKey(typeName: string, fieldName: string): string {
    typeName + "-" + fieldName
  }

  const FieldKeyOf: (string, string) -> string := (t, f) => FieldKey(t, f)

  /** Every key the draft looks up holds a hyphen, right after the type name. */
  lemma FieldKeyHasHyphen(typeName: string, fieldName: string)
    ensures '-' in FieldKey(typeName, fieldName)
  {
    assert FieldKey(typeName, fieldName)[|typeName|] == '-';
  }

  /** What `checkCount` computes for a field under a root type: only the field key is consulted. */
  function ProbeFor(table: map<string, int>, errorFn: ErrorFn, typeName: string, node: FieldNode): (p: Probe<ErrorResult>)
    ensures p.key == FieldKey(typeName, node.name) && p.maxAllowed == Get(table, FieldKey(typeName, node.name))
  {
    var key := FieldKey(typeName, node.name);
    Probe(key, Get(table, key), errorFn(typeName, node.name, Get(table, key).GetOr(0), node))
  }

  /** The probes of one run, over its limit table and error function. */
  function ProberOf(table: map<string, int>, errorFn: ErrorFn): Prober<ErrorResult> {
    (t, n) => ProbeFor(table, errorFn, t, n)
  }

  /**
   * The alias limit, per field of a root type, over a whole document. Let
   * `m` be the entry stored under `Type-field` and `k` the number of times
   * the field is selected under that type, and `a = max(m, 0)`. With a truthy
   * `m`, the count is `min(k, a)`, the field is flagged exactly when `k > a`,
   * and then there is exactly one report: what `errorFn` returned for the
   * `(a+1)`-th selection, unmodified. Without a truthy entry nothing is
   * counted or reported.
   */
  lemma AliasLimit(table: map<string, int>, errorFn: ErrorFn, evs: seq<FieldEvent>, typeName: string, fieldName: string)
    requires IsRootName(typeName)
    ensures var s := RunEvents(ProberOf(table, errorFn), evs);
      var key, occ, limit := FieldKey(typeName, fieldName), Occurrences(evs, typeName, fieldName), Get(table, FieldKey(typeName, fieldName));
      if Truthy(limit) then
        var allowed := Allowance(limit.value);
        && CountOf(s, key) == (if |occ| < allowed then |occ| else allowed)
        && (Reported(s, key) <==> |occ| > allowed)
        && ReportsFor(s.reports, key) ==
             if |occ| > allowed then [Report(key, errorFn(typeName, fieldName, limit.value, occ[allowed]))] else []
      else
        key !in s.counts && key !in s.errorMap && ReportsFor(s.reports, key) == []
  {
    var probe, limit := ProberOf(table, errorFn), Get(table, FieldKey(typeName, fieldName));
    assert KeyedBy(probe, "-");
    FieldOutcome(probe, "-", evs, typeName, fieldName, limit);
    var occ := Occurrences(evs, typeName, fieldName);
    if Truthy(limit) && |occ| > Allowance(limit.value) {
      var n := occ[Allowance(limit.value)];
      assert probe(typeName, n).report == errorFn(typeName, fieldName, limit.value, n);
    }
  }

  /** The entries of a table whose key holds a hyphen: the only ones a lookup can reach. */
  function HyphenEntries(table: map<string, int>): (r: map<string, int>)
    ensures forall k :: k in r <==> k in table && '-' in k
    ensures forall k :: k in r ==> r[k] == table[k]
  {
    map k | k in table && '-' in k :: table[k]
  }

  /**
   * Only hyphenated keys are ever consulted: a run over a table gives the
   * same counters and reports as a run over its hyphenated entries alone.
   */
  lemma OnlyFieldKeysConsulted(table: map<string, int>, errorFn: ErrorFn, evs: seq<FieldEvent>)
    ensures RunEvents(ProberOf(table, errorFn), evs) == RunEvents(ProberOf(HyphenEntries(table), errorFn), evs)
  {
    forall t, n | IsRootName(t)
      ensures ProberOf(table, errorFn)(t, n) == ProberOf(HyphenEntries(table), errorFn)(t, n)
    {
      FieldKeyHasHyphen(t, n.name);
    }
    SameProbesSameRun(ProberOf(table, errorFn), ProberOf(HyphenEntries(table), errorFn), evs);
  }

  /**
   * A type-level directive has no effect: storing a value under a type name
   * (which, GraphQL names having no hyphen, holds none) changes nothing in
   * any run.
   */
  lemma TypeEntryIgnored(table: map<string, int>, typeName: string, v: int, errorFn: ErrorFn, evs: seq<FieldEvent>)
    requires '-' !in typeName
    ensures RunEvents(ProberOf(table[typeName := v], errorFn), evs) == RunEvents(ProberOf(table, errorFn), evs)
  {
    OnlyFieldKeysConsulted(table[typeName := v], errorFn, evs);
    OnlyFieldKeysConsulted(table, errorFn, evs);
    assert HyphenEntries(table[typeName := v]) == HyphenEntries(table);
  }

  /**
   * Without the directive anywhere on the root types of the schema, no
   * selection is ever counted or reported: a directive written in the
   * request document itself is not part of the schema and does nothing.
   */
  lemma NoDirectiveNoReports(defaultAllow: int, directiveName: string, schema: Schema, errorFn: ErrorFn, evs: seq<FieldEvent>)
    requires NoDirective(directiveName, [schema.queryType, schema.mutationType])
    ensures var table := SchemaTable(defaultAllow, directiveName, [schema.queryType, schema.mutationType], FieldKeyOf);
      RunEvents(ProberOf(table, errorFn), evs) == Fresh()
  {
    NoDirectiveEmptyTable(defaultAllow, directiveName, [schema.queryType, schema.mutationType], FieldKeyOf);
    NoLimitNoChange(ProberOf(map[], errorFn), evs);
  }

  // ----- Building the limit table -----

  /**
   * `createMaxAllowedTable`: for each root type in turn, the type-level
   * directive value under the type name, then each field's value under
   * `Type-field` (the type renders as its name in the template literal),
   * falsy values left out.
   */
  method CreateMaxAllowedTable(defaultAllow: int, directiveName: string, types: seq<Option<ObjectType>>)
    returns (maxAllowed: map<string, int>)
    ensures maxAllowed == SchemaTable(defaultAllow, directiveName, types, FieldKeyOf)
  {
    maxAllowed := map[];
    for i := 0 to |types|
      invariant maxAllowed == SchemaTable(defaultAllow, directiveName, types[..i], FieldKeyOf)
    {
      assert types[..i + 1][..i] == types[..i];
      var graphType := types[i];
      var value := if graphType.Some? then ProcessDirective(directiveName, defaultAllow, TypeDirectives(graphType.value)) else None;
      if TruthyNum(value) {
        maxAllowed := maxAllowed[graphType.value.name := value.value.n];
      }
      if graphType.Some? && graphType.value.astNode.Some? && graphType.value.astNode.value.fields.Some? {
        var fields := graphType.value.astNode.value.fields.value;
        ghost var withType := maxAllowed;
        for j := 0 to |fields|
          invariant maxAllowed == AddFields(withType, defaultAllow, directiveName, graphType.value.name, fields[..j], FieldKeyOf)
        {
          assert fields[..j + 1][..j] == fields[..j];
          var field := fields[j];
          var fieldValue := ProcessDirective(directiveName, defaultAllow, field.directives);
          if TruthyNum(fieldValue) {
            maxAllowed := maxAllowed[FieldKey(graphType.value.name, field.name) := fieldValue.value.n];
          }
        }
        assert fields[..|fields|] == fields;
      }
    }
    assert types[..|types|] == types;
  }

  // ----- The visitor of one validation run -----

  /**
   * `createFieldValidation` and the closure it returns: the limit table of
   * this run, the two maps the closure owns, and what it has handed to
   * `context.reportError`. The ghost `log` records which key each report
   * was made for, and `visited` the field events seen so far.
   */
  class DraftValidator {
    const allowedCount: map<string, int>
    const errorFn: ErrorFn
    var currentCount: map<string, int>
    var errorMap: map<string, bool>
    var reported: seq<ErrorResult>
    ghost var log: seq<Report<ErrorResult>>
    ghost var visited: seq<FieldEvent>

    ghost predicate Valid()
      reads this
    {
      reported == Values(log)
    }

    ghost function State(): Counters<ErrorResult>
      reads this
    {
      Counters(currentCount, errorMap, log)
    }

    /** The maps are what running the visited events from fresh maps gives. */
    ghost predicate Ran()
      reads this
    {
      State() == RunEvents(ProberOf(allowedCount, errorFn), visited)
    }

    /** The table comes from the schema's Query and Mutation types; the maps start empty. */
    constructor(schema: Schema, directiveName: string, defaultAllow: int, errorFn: ErrorFn)
      ensures Valid() && State() == Fresh() && reported == []
      ensures visited == [] && Ran()
      ensures forall t, f, m, n :: this.errorFn(t, f, m, n) == errorFn(t, f, m, n)
      ensures allowedCount == SchemaTable(defaultAllow, directiveName, [schema.queryType, schema.mutationType], FieldKeyOf)
    {
      var table := CreateMaxAllowedTable(defaultAllow, directiveName, [schema.queryType, schema.mutationType]);
      allowedCount := table;
      this.errorFn := errorFn;
      currentCount := map[];
      errorMap := map[];
      reported := [];
      log := [];
      visited := [];
    }

    /** The "leave Field" callback: only fields whose parent is Query or Mutation are checked. */
    method OnFieldLeave(ev: FieldEvent)
      requires Valid() && Ran()
      modifies this
      ensures Valid() && State() == Step(ProberOf(allowedCount, errorFn), old(State()), ev)
      ensures visited == old(visited) + [ev] && Ran()
    {
      var parentTypeName := ev.parentType;
      if parentTypeName == Some("Query") || parentTypeName == Some("Mutation") {
        CheckCount(parentTypeName.value, ev.node);
      }
      visited := visited + [ev];
      assert visited[..|visited| - 1] == old(visited);
    }

    /** `checkCount` for one field under `typeName`. */
    method CheckCount(typeName: string, node: FieldNode)
      requires Valid()
      modifies this
      ensures Valid() && State() == Check(old(State()), ProbeFor(allowedCount, errorFn, typeName, node))
      ensures visited == old(visited)
    {
      var nodeName := node.name;
      var key := FieldKey(typeName, nodeName);
      var maxAllowed := Get(allowedCount, key);
      if Truthy(maxAllowed) {
        var count := (if key in currentCount then currentCount[key] else 0) + 1;
        if count > maxAllowed.value {
          if !(key in errorMap && errorMap[key]) {
            var errorResult := errorFn(typeName, nodeName, maxAllowed.value, node);
            reported := reported + [errorResult];
            log := log + [Report(key, errorResult)];
            errorMap := errorMap[key := true];
          }
          return;
        }
        currentCount := currentCount[key := count];
      }
    }
  }
}
