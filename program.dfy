/** The program document a request carries, once parsed: declared variables, modules and statements. */
module Program {
  import opened Errors
  import opened Driver

  /** A declared constant variable: its type descriptor and its literal value. */
  datatype VariableDescriptor = VariableDescriptor(typeDescriptor: string, literal: string)

  /** A module descriptor. The pool stands for the connection parameters `mysql.createPool` receives. */
  datatype ModuleDescriptor = ModuleDescriptor(name: string, className: string, pool: Pool)

  datatype Header = Header(name: string, value: string)

  /** A query body is a sequence of fragments; a fragment is literal text or, prefixed by ':', a variable name. */
  type Body = seq<string>

  /** The main query of an aggregate: its body and the names its columns are published under. */
  datatype Query = Query(body: Body, clauses: seq<string>)

  /** A one-to-many detail collection of an aggregate. */
  datatype Subquery = Subquery(name: string, body: Body, clauses: seq<string>)

  /** The kind-specific part of a statement. An absent `body` or `headers` is the empty sequence;
      `requireTransaction` is None when absent or not a boolean. */
  datatype StatementKind =
    | Plain(body: Body, headers: seq<Header>, status: int)
    | Aggregate(query: Query, subqueries: seq<Subquery>)
    | Assign(assignQuery: Body, typeDescriptor: string, assignName: string)
    | Check(checkQuery: Body, requireTransaction: Option<bool>)
    | Update(updateQuery: Body, affectedRowsName: Option<string>, changedRowsName: Option<string>)
    | Commit
    | Rollback
    | StartTransaction
    | Unrecognized(kind: string)

  datatype Statement = Statement(moduleName: string, kind: StatementKind)

  /** The `kind` field of a statement. */
  function KindName(k: StatementKind): string {
    match k
    case Plain(_, _, _) => "plain"
    case Aggregate(_, _) => "aggregate"
    case Assign(_, _, _) => "assign"
    case Check(_, _) => "check"
    case Update(_, _, _) => "update"
    case Commit => "commit"
    case Rollback => "rollback"
    case StartTransaction => "startTransaction"
    case Unrecognized(kind) => kind
  }

  /** A program. Variables are listed in the order of the document's keys; absent modules are none. */
  datatype Program = Program(
    variables: seq<(string, VariableDescriptor)>,
    modules: seq<ModuleDescriptor>,
    statements: seq<Statement>)
}
