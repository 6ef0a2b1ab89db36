# graphql-no-alias in Dafny

A model of the GraphQL validation rule "no alias". The rule limits how many
times a field of the Query or Mutation root type may be selected in one
document. Each alias (section 2.7 of the GraphQL specification, October
2021) counts as one more selection. The limit of a field comes from one of
two places:

- an `@noAlias(allow: N)` directive on the root type or on the field in the
  schema;
- in the current version only, a nested `permissions` option such as
  `{ Query: { '*': 1, getAnotherUser: 2 } }`.

Both versions of the rule in the repository are modelled:

- `packages/no-alias/src/index.ts`, the current version. A field is counted
  under `"Type.field"`. Its limit is the field entry when that is truthy,
  and the type-wide entry `"Type"` otherwise. A plain string returned by
  `errorFn` is wrapped into a diagnostic.
- `src/index.ts`, the older version. A field is counted and looked up under
  `"Type-field"` only. The type-level directive value is stored under the
  bare type name, but no lookup ever reaches it. Whatever `errorFn` returns
  is reported unchanged.

Files and modules:

- `js.dfy` (`Js`): the JavaScript semantics the rule relies on. These are
  `undefined`, a `parseInt` result (an integer or NaN), truthiness, `Map.get`,
  and how a template literal renders an integer.
- `graphql.dfy` (`GraphQL`): the graphql-js values the rule reads. These are
  schema types with their AST directives, field nodes, the "leave Field"
  events, diagnostics and the error-function type.
- `directives.dfy` (`Directives`): `processDirective`, and the table both
  versions build from the schema. The table builder takes the key spelling
  as a parameter.
- `permissions.dfy` (`Permissions`): the `permissions` option. A recursive
  walk writes into a shared `Map`. A reference reading lists every number
  with the path of keys leading to it.
- `counting.dfy` (`Counting`): the per-run counter that both versions'
  `checkCount` implement, and what a whole run leaves for one key.
- `visits.dfy` (`Visits`): a validation run as a sequence of "leave Field"
  events. Only fields whose parent type is literally `Query` or `Mutation`
  are checked. The per-field alias-limit theorem is proved here.
- `no_alias.dfy` (`NoAlias`): the current version. It holds the options
  and defaults, the limit lookup, the schema table builder, and the
  `Validator` class, which owns the two maps of one run.
- `no_alias_draft.dfy` (`NoAliasDraft`): the older version, with the same
  structure.

The maps that live across calls are `map` fields of a class whose methods
update them: the walk's shared result map (`Permissions.Table`) and the two
per-run maps (`Validator`, `DraftValidator`). The schema table that
`buildPermissionTableFromSchema` and `createMaxAllowedTable` fill in their
loops is a local `map` variable of the method that models each of them, since
it never leaves that function before it is complete. The methods are proved against the functions `Check`, `Step`,
`Walk` and `SchemaTable`. The lemmas state what those functions mean over
a whole document or a whole permissions object.

A type-level limit could be read as one budget shared by all fields of the
type. The code does not do this. It counts every field
under its own key, even when the limit comes from the type entry. The model
follows the code; see `NoAlias.TypeDefaultIsPerField`.

## Model

| member | source | states |
|---|---|---|
| Js.IntToString | packages/no-alias/src/index.ts:46 | an integer in a template literal renders as its shortest decimal digits, with a leading `-` when negative; the digits denote the value |
| Js.IntToStringInjective | packages/no-alias/src/index.ts:242 | different limits render differently, so the message's `(max: m)` identifies the limit |
| GraphQL.RootKeyInjective | packages/no-alias/src/index.ts:142-143 | for parents `Query`/`Mutation`, `type + sep + field` determines both the type and the field, so two different root fields never share a count key |
| Directives.ProcessDirective | packages/no-alias/src/index.ts:211-226 | no directive list gives undefined; the result is undefined exactly when no directive has the name; otherwise it is the first matching directive's first argument, or the default when that directive has no argument; the older version's copy (src/index.ts:146-161) is the same function |
| Directives.AddFieldsEntries | packages/no-alias/src/index.ts:193-205 | the field loop keeps every earlier key; each new entry comes from a field with a truthy value stored under that field's key; every such field gets an entry |
| Directives.AddTypeEntries | packages/no-alias/src/index.ts:180-205 | one root type adds its truthy type-level value under its name and its truthy field values under their keys, and nothing else |
| Directives.SchemaTableEntries | packages/no-alias/src/index.ts:172-209 | the schema table holds exactly the keys that some present root type or root field produces with a truthy directive value; every stored value is such a value, so it is never 0; absent types add nothing |
| Directives.NoDirectiveEmptyTable | src/index.ts:95-132 | when no root type and no root field carries the directive, the table is empty |
| Permissions.JoinPath | packages/no-alias/src/index.ts:75-77 | the path of a nested object is the parent path and the key, with `.` between them only when both are non-empty |
| Permissions.LeafKey | packages/no-alias/src/index.ts:80-84 | a number under `*` is stored at the parent path itself; any other key is stored at parent path, `.`, key, and the `.` is written even when the parent path is empty |
| Permissions.Table.Set | packages/no-alias/src/index.ts:81-83 | `Map.set` overwrites the key and changes nothing else |
| Permissions.ConfigPermissionWalker | packages/no-alias/src/index.ts:65-87 | the walk adds the object's entries to the shared map in `Object.entries` order, recursing into nested objects, exactly as `Walk` describes |
| Permissions.BuildPermissionTableFromConfig | packages/no-alias/src/index.ts:89-94 | the table is one walk into a new map, starting from the empty path |
| Permissions.WalkIsInsertAll | packages/no-alias/src/index.ts:70-86 | the recursive walk writes every number of the object, depth first in entry order, at its rendered path |
| Permissions.FlattenKeys | packages/no-alias/src/index.ts:65-94 | the flattened table's keys are exactly the rendered paths of all numbers in the object |
| Permissions.FlattenValue | packages/no-alias/src/index.ts:65-94 | a number whose rendered path no other number shares is stored with its own value |
| Permissions.RenderTypeAndField | packages/no-alias/src/index.ts:75-83 | `{T: {'*': n}}` renders to key `T` and `{T: {f: m}}` to key `T.f` |
| Permissions.FlattenTypeDefault | packages/no-alias/src/index.ts:80-81 | `{T: {'*': n}}` flattens to exactly the entry `T -> n` |
| Permissions.FlattenTypeField | packages/no-alias/src/index.ts:83 | `{T: {f: m}}` flattens to exactly the entry `T.f -> m` |
| Permissions.FlattenDefaultAndOverride | packages/no-alias/src/index.ts:70-84 | `{T: {'*': n, f: m}}` gives both `T -> n` and `T.f -> m` |
| Counting.Check | packages/no-alias/src/index.ts:146-165 | one `checkCount` touches only its own key. A falsy limit changes nothing. A count never decreases and is raised by one only while it stays within the limit. A flag is never cleared. At most one report is added, for the probe's key, and only when that key is flagged for the first time |
| Counting.RunPerKey | packages/no-alias/src/index.ts:146-165 | for a key seen `k` times with limit `m` over a run: the count is `min(k, max(m, 0))`; the key is flagged exactly when `k > max(m, 0)`; there is one report, from the `(max(m,0)+1)`-th occurrence, and none otherwise; with a falsy limit the key is never touched |
| Counting.RunReportsOncePerKey | packages/no-alias/src/index.ts:149-159 | over a run no key is reported twice, and every reported key stays flagged |
| Visits.RunEventsIsRun | packages/no-alias/src/index.ts:120-126 | visiting a document is running the counter over the probes of its checked fields, in document order |
| Visits.KeyProbesAreOccurrences | packages/no-alias/src/index.ts:140-147 | the probes counted under `Type<sep>field` are exactly those of the selections of that field under that root type, aliases included |
| Visits.ProbesComeFromRootFields | packages/no-alias/src/index.ts:121-124 | every counted probe comes from a field whose parent is `Query` or `Mutation` |
| Visits.FieldOutcome | packages/no-alias/src/index.ts:120-165 | the per-field alias limit over a whole document, whenever every selection of the field looks up the same limit: capped count, flagged iff over the allowance, one report from the first selection past it |
| Visits.RunEventsReportsOncePerKey | packages/no-alias/src/index.ts:149-159 | over a whole document each key is reported at most once |
| Visits.NoLimitNoChange | packages/no-alias/src/index.ts:146 | when no root field finds a truthy limit, the run leaves both maps empty and reports nothing |
| Visits.SameProbesSameRun | packages/no-alias/src/index.ts:120-126 | a run depends only on what `checkCount` computes for root fields |
| NoAlias.TypeDefs | packages/no-alias/src/index.ts:46 | the declaration is `directive @`, the directive name, then `(allow: Int = <default>) on OBJECT \| FIELD_DEFINITION` |
| NoAlias.CreateErrorMsg | packages/no-alias/src/index.ts:234-245 | the default error is a diagnostic that points at the field node; its message is `Allowed number of calls for T->f`, then ` has been exceeded `, then `(max: m)` |
| NoAlias.CreateValidation | packages/no-alias/src/index.ts:32-46 | each option is the supplied one if given, otherwise the default: 1, `noAlias`, no permissions, and `createErrorMsg` as the error function; the declaration is built from the resulting name and default |
| NoAlias.CreateValidationDefaults | packages/no-alias/src/index.ts:36-43 | with no config the declaration is for `noAlias` with default `1`, there are no permissions, and errors come from `createErrorMsg` |
| NoAlias.MaxAllowed | packages/no-alias/src/index.ts:142-144 | a truthy field entry wins; otherwise the type entry, whatever it holds, is the limit; the limit is truthy exactly when one of the two entries is |
| NoAlias.ToDiagnostic | packages/no-alias/src/index.ts:152-157 | a string result becomes a diagnostic with exactly that message and no node; a diagnostic result is passed through unchanged |
| NoAlias.ProbeFor | packages/no-alias/src/index.ts:140-147 | `checkCount` counts under `Type.field` with the limit `MaxAllowed` looks up |
| NoAlias.AliasLimit | packages/no-alias/src/index.ts:140-165 | for a field of `Query`/`Mutation` selected `k` times with truthy limit `m`, and allowance `a = max(m, 0)`: the count is `min(k, a)`; the field is flagged iff `k > a`, and then there is exactly one report, the wrapped `errorFn` result for the `(a+1)`-th selection (the first one when `m` is negative). Without a truthy limit nothing is counted or reported |
| NoAlias.TypeDefaultIsPerField | packages/no-alias/src/index.ts:142-147 | with `{Query: {'*': n}}` every field under Query gets its own budget of `n`: its count and its flag depend only on its own selections |
| NoAlias.EmptyTableNoReports | packages/no-alias/src/index.ts:146 | with an empty table a document reports nothing and stores nothing |
| NoAlias.NoDirectiveNoReports | packages/no-alias/src/index.ts:107-114 | with no permissions and no directive on the root types or their fields, no selection is ever counted or reported |
| NoAlias.BuildPermissionTableFromSchema | packages/no-alias/src/index.ts:172-209 | the nested loops build exactly `SchemaTable` with keys `Type.field`, so `Directives.SchemaTableEntries` describes the result |
| NoAlias.Validator.constructor | packages/no-alias/src/index.ts:96-118 | the table comes only from `permissions` when given, otherwise only from the Query and Mutation types; both maps start empty |
| NoAlias.Validator.OnFieldLeave | packages/no-alias/src/index.ts:120-126 | a field is checked only when its parent is `Query` or `Mutation`; after any sequence of visits the maps are those of the run over that sequence, which `AliasLimit` describes |
| NoAlias.Validator.CheckCount | packages/no-alias/src/index.ts:132-166 | the in-place map updates and reports are one `Counting.Check` of the field's probe |
| NoAliasDraft.CreateValidation | src/index.ts:13-38 | an argument left undefined takes its default (1, `noAlias`, `createErrorMsg`); the declaration is the same as in the current version |
| NoAliasDraft.CreateErrorMsg | src/index.ts:134-144 | the same message as the current version, with no node |
| NoAliasDraft.FieldKeyHasHyphen | src/index.ts:75 | every key the older version looks up contains a `-` right after the type name |
| NoAliasDraft.ProbeFor | src/index.ts:73-76 | the older version counts and looks up under `Type-field` only |
| NoAliasDraft.AliasLimit | src/index.ts:65-93 | the same per-field theorem under key `Type-field`, with allowance `a = max(m, 0)`: count `min(k, a)`, flagged iff `k > a`, and then one report, exactly what `errorFn` returned for the `(a+1)`-th selection, unmodified |
| NoAliasDraft.OnlyFieldKeysConsulted | src/index.ts:75-78 | a run over a table behaves exactly like a run over its hyphenated entries alone |
| NoAliasDraft.TypeEntryIgnored | src/index.ts:112-114 | the type-level entry stored under a type name has no effect on any run |
| NoAliasDraft.NoDirectiveNoReports | src/index.ts:46-62 | without the directive in the schema nothing is counted or reported, whatever the document contains |
| NoAliasDraft.CreateMaxAllowedTable | src/index.ts:95-132 | the nested loops build exactly `SchemaTable` with keys `Type-field` |
| NoAliasDraft.DraftValidator.constructor | src/index.ts:40-55 | the table comes from the Query and Mutation types; both maps start empty |
| NoAliasDraft.DraftValidator.OnFieldLeave | src/index.ts:56-62 | a field is checked only when its parent is `Query` or `Mutation`; the maps are always those of the run over the visited events |
| NoAliasDraft.DraftValidator.CheckCount | src/index.ts:65-93 | the in-place map updates and the unmodified report are one `Counting.Check` of the field's probe |

## Left out

- graphql-js itself is not modelled: `parse`, `buildSchema`, `validate`, `ValidationContext`, the visitor traversal and `GraphQLError` construction. A document is the sequence of "leave Field" events the visitor would produce. A diagnostic is its message and optional node.
- `parseInt` string semantics are not modelled: a directive argument is given already parsed, as an integer or NaN.
- JavaScript numbers are modelled as unbounded integers. Fractional or very large limits are not modelled.
- The `ctx` argument passed through to `errorFn` is left out. An error function is a pure function of the type name, field name, limit and node, so calling it before or after the flag check cannot be told apart.
- `packages/envelop/src/index.ts` is not part of this model. It only registers the rule with the envelop plugin API.
- A top-level `'*'` number in `permissions` writes to an `undefined` key. The model writes it under the empty string. Neither key is ever looked up, because only `Query` and `Mutation` parents are checked.
- NoAlias.CreateValidation: a config member that is present but explicitly `undefined` overrides the default in the object spread. The model treats it as absent.
- NoAlias.CreateValidationDefaults: states the declaration as `TypeDefs("noAlias", 1)` with `1` rendered as `"1"`, not as one literal string.
- Permission values that are neither numbers nor objects, and a `null` value (which `typeof` calls an object), are not modelled.
- Both table builders render a type as `${graphType}` in the field key. graphql-js renders an object type as its name, and the model uses the name.
- Visitor order and the nesting of selections are not modelled beyond the order of the events. Counting under nested object types does not exist in the code either.
