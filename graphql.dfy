/**
 * The parts of graphql-js the validation rule talks to, reduced to the
 * values it reads: schema type definitions with their directives, the field
 * nodes met during traversal, and the diagnostics handed to `reportError`.
 * Parsing, schema building and the visitor itself are not modelled.
 */
module GraphQL {
  import opened Js

  /**
   * A directive occurrence `@name(arg: value, ...)` as found in a schema AST.
   * Only the first argument's value is ever read, already passed through
   * `parseInt`; an empty `arguments` stands for a directive written without
   * arguments.
   */
  datatype Directive = Directive(name: string, arguments: seq<Num>)

  /** A field definition node of an object type (`fields[i]` of the AST). */
  datatype FieldDefinition = FieldDefinition(name: string, directives: Option<seq<Directive>>)

  /** The AST node an object type was built from; both lists may be absent. */
  datatype TypeDefinition = TypeDefinition(directives: Option<seq<Directive>>, fields: Option<seq<FieldDefinition>>)

  /** A schema object type; `astNode` is absent for types built in code. */
  datatype ObjectType = ObjectType(name: string, astNode: Option<TypeDefinition>)

  /** What the rule asks of a schema: its query and mutation root types, either may be absent. */
  datatype Schema = Schema(queryType: Option<ObjectType>, mutationType: Option<ObjectType>)

  /** The directives declared on a type, or none when it has no AST node. */
  function TypeDirectives(t: ObjectType): Option<seq<Directive>> {
    if t.astNode.Some? then t.astNode.value.directives else None
  }

  /**
   * A field selection of the request document. An alias (section 2.7 of the
   * GraphQL specification, October 2021) changes only the response key; the
   * rule reads `name` alone, so each aliased selection is one more occurrence.
   */
  datatype FieldNode = FieldNode(name: string, alias: Option<string>)

  /**
   * One "leave Field" visit: the field node and the name of the parent type
   * the traversal context reports for it (absent when it has none).
   */
  datatype FieldEvent = FieldEvent(parentType: Option<string>, node: FieldNode)

  /** A `GraphQLError`: its message and, when given one, the node it points at. */
  datatype Diagnostic = Diagnostic(message: string, node: Option<FieldNode>)

  /** What an error function may return: a plain message or a ready diagnostic. */
  datatype ErrorResult = Text(text: string) | Error(diagnostic: Diagnostic)

  /**
   * `errorFn(typeName, fieldName, maxAllowed, node, ctx)`; the context argument
   * is only passed through and is left out.
   */
  type ErrorFn = (string, string, int, FieldNode) -> ErrorResult

  /** The names the rule compares parent types against, literally. */
  const QueryName: string := "Query"
  const MutationName: string := "Mutation"

  predicate IsRootName(t: string) {
    t == QueryName || t == MutationName
  }

  /** Whether the rule looks at a field event at all. */
  predicate IsChecked(ev: FieldEvent) {
    ev.parentType.Some? && IsRootName(ev.parentType.value)
  }

  /**
   * `typeName + sep + fieldName` identifies the pair when the type is one of
   * the two root names: the drafts' count keys never collide.
   */
  lemma {:induction false} RootKeyInjective(t1: string, f1: string, t2: string, f2: string, sep: string)
    requires IsRootName(t1) && IsRootName(t2)
    requires t1 + sep + f1 == t2 + sep + f2
    ensures t1 == t2 && f1 == f2
  {
    // the two root names already differ in their first character
    assert (t1 + sep + f1)[0] == t1[0] && (t2 + sep + f2)[0] == t2[0];
    if t1 == t2 {
      var key, n := t1 + sep + f1, |t1 + sep|;
      assert |f1| == |f2|;
      forall i | 0 <= i < |f1| ensures f1[i] == f2[i] {
        assert f1[i] == key[n + i] == f2[i];
      }
    }
  }
}
