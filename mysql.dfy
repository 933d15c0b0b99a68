/** The MySQL module context of one request, as an object: its connection flag, its transaction
    flag, and the SQL sent on its connection, updated in place by each statement. */
module MysqlModule {
  import opened Errors
  import opened Types
  import opened JsonValues
  import opened Driver
  import opened Program
  import opened Execution
  import opened MysqlSpec

  /** The object built from one row, clause by clause; a clause beyond the last column reads
      `.name` of undefined. */
  method ProjectRow(clauses: seq<string>, fields: seq<string>, cells: seq<string>) returns (r: Result<Members>)
    requires |cells| == |fields|
    ensures r == Project(clauses, fields, cells)
  {
    var current: Members := [];
    var clauseIndex := 0;
    while clauseIndex < |clauses|
      invariant 0 <= clauseIndex <= |clauses| && clauseIndex <= |fields|
      invariant current == RowObject(clauses[..clauseIndex], cells)
    {
      if clauseIndex >= |fields| {
        return Err(MissingColumn);
      }
      assert clauses[..clauseIndex + 1][..clauseIndex] == clauses[..clauseIndex];
      current := Put(current, clauses[clauseIndex], JString(cells[clauseIndex]));
      clauseIndex := clauseIndex + 1;
    }
    assert clauses[..clauseIndex] == clauses;
    return Ok(current);
  }

  class MysqlContext {
    const exec: ExecutionContext
    const pool: Pool
    /** `connection!==null` */
    var connAcquired: bool
    /** `transactionStarted` */
    var inTx: bool
    /** The SQL texts sent on the connection, oldest first. */
    var log: seq<string>
    /** Whether `connection.release()` was called. */
    var released: bool

    function State(): MysqlState
      reads this
    {
      MysqlState(connAcquired, log, inTx, released)
    }

    ghost predicate Valid()
      reads this
    {
      Inv(State())
    }

    constructor (exec: ExecutionContext, pool: Pool)
      ensures this.exec == exec && this.pool == pool
      ensures State() == Initial && Valid()
    {
      this.exec := exec;
      this.pool := pool;
      connAcquired := false;
      inTx := false;
      log := [];
      released := false;
    }

    /** `execute`: assembles the SQL, acquires the connection on first use, and runs the query. */
    method Execute(body: Body) returns (r: Result<ResultSet>)
      modifies this
      ensures QueryStep(r, State()) == RunQuery(pool, exec.variables, old(State()), body)
    {
      var sql :- Assemble(exec.variables, pool.escape, body);
      if !connAcquired {
        if pool.acquireError.Some? {
          return Err(Fault("Error", pool.acquireError.value));
        }
        connAcquired := true;
      }
      var reply := pool.query(log, sql);
      log := log + [sql];
      match reply
      case Rows(rs) => r := Ok(rs);
      case DriverError(m) => r := Err(Fault("Error", m));
    }

    /** `executeAggregateSubquery`: one object per row, built clause by clause. */
    method ExecuteAggregateSubquery(sub: Subquery) returns (r: Result<Json>)
      modifies this
      ensures JsonStep(r, State()) == SubqueryEffect(pool, exec.variables, old(State()), sub)
    {
      var rs :- Execute(sub.body);
      ghost var st := State();
      var clauses := sub.clauses;
      var items: seq<Json> := [];
      var k := 0;
      while k < |rs.rows|
        invariant 0 <= k <= |rs.rows|
        invariant State() == st
        invariant |clauses| <= |rs.fields| ==> items == RowObjects(clauses, rs.rows[..k])
        invariant |clauses| > |rs.fields| ==> k == 0
        invariant k == 0 ==> items == []
      {
        var current :- ProjectRow(clauses, rs.fields, rs.rows[k]);
        assert rs.rows[..k + 1][..k] == rs.rows[..k];
        items := items + [JObject(current)];
        k := k + 1;
      }
      assert rs.rows[..k] == rs.rows;
      return Ok(JArray(items));
    }

    /** `executeAggregate`: 404 for no rows, an error for several, and for one row a JSON object of
        the row's columns and the subqueries' arrays. */
    method ExecuteAggregate(query: Query, subs: seq<Subquery>) returns (r: Outcome)
      modifies this, exec.response
      ensures old(exec.response.events) <= exec.response.events
      ensures Effect(r, State(), exec.variables, exec.response.events[|old(exec.response.events)|..]) ==
              AggregateEffect(pool, exec.variables, old(State()), query, subs)
    {
      ghost var before := exec.response.events;
      var rs :- Execute(query.body);
      if |rs.rows| == 0 {
        exec.response.SetHeader("Content-Type", "text/plain");
        exec.response.WriteHead(404);
        exec.response.End(Text("Empty."));
        assert exec.response.events[|before|..] == EmptyResponse;
        return Done;
      }
      if |rs.rows| > 1 {
        return Err(InvalidState("Main aggregate query returned more than a single row."));
      }
      r := RespondSingleRow(query.clauses, rs, subs);
    }

    /** The single-row case of `executeAggregate`: the JSON opening, the row's projection, the
        subqueries in order, and the object as the body once all of them succeeded. */
    method RespondSingleRow(clauses: seq<string>, rs: ResultSet, subs: seq<Subquery>) returns (r: Outcome)
      requires |rs.rows| == 1
      modifies this, exec.response
      ensures old(exec.response.events) <= exec.response.events
      ensures Effect(r, State(), exec.variables, exec.response.events[|old(exec.response.events)|..]) ==
              SingleRowEffect(pool, exec.variables, old(State()), clauses, rs, subs)
    {
      ghost var before := exec.response.events;
      exec.response.SetHeader("Content-Type", "application/json");
      exec.response.WriteHead(200);
      assert exec.response.events == before + JsonOpening;
      ghost var st := State();
      var projected := ProjectRow(clauses, rs.fields, rs.rows[0]);
      if projected.Err? {
        assert exec.response.events[|before|..] == JsonOpening;
        return Err(projected.error);
      }
      var result := projected.value;
      var j := 0;
      while j < |subs|
        invariant 0 <= j <= |subs|
        invariant exec.response.events == before + JsonOpening
        invariant Subqueries(pool, exec.variables, st, RowObject(clauses, rs.rows[0]), subs) ==
                  Subqueries(pool, exec.variables, State(), result, subs[j..])
      {
        assert subs[j..][1..] == subs[j + 1..];
        var a := ExecuteAggregateSubquery(subs[j]);
        if a.Err? {
          assert exec.response.events[|before|..] == JsonOpening;
          return Err(a.error);
        }
        result := Put(result, subs[j].name, a.value);
        j := j + 1;
      }
      exec.response.End(JsonText(JObject(result)));
      assert exec.response.events[|before|..] == JsonOpening + [Ended(JsonText(JObject(result)))];
      return Done;
    }

    /** `executeAssign`: binds the first column of the first row, converted through the declared type. */
    method ExecuteAssign(query: Body, typeDescriptor: string, name: string) returns (r: Outcome)
      modifies this, exec
      ensures Effect(r, State(), exec.variables, []) ==
              AssignEffect(pool, old(exec.variables), old(State()), query, typeDescriptor, name)
    {
      var rs :- Execute(query);
      if |rs.rows| == 0 {
        return Err(InvalidState("empty resultset."));
      }
      var t :- FromDescriptor(typeDescriptor);
      if |rs.fields| == 0 {
        return Err(MissingColumn);
      }
      var v :- StringToValue(t, rs.rows[0][0]);
      r := exec.AssignVariable(name, t, v);
    }

    /** `executeCheck`, with the guard as evidently intended. */
    method ExecuteCheck(query: Body, requireTransaction: Option<bool>) returns (r: Outcome)
      modifies this
      ensures Effect(r, State(), exec.variables, []) ==
              CheckEffect(pool, exec.variables, old(State()), query, requireTransaction)
    {
      AssembleKeyword(exec.variables, pool.escape, "ROLLBACK");
      if CheckRefused(requireTransaction, inTx) {
        return Err(InvalidState(OutsideTransaction("CHECK")));
      }
      var rs :- Execute(query);
      if |rs.rows| != 0 {
        var rolledBack :- Execute(["ROLLBACK"]);
        inTx := false;
        if |rs.fields| == 0 {
          return Err(MissingColumn);
        }
        return Err(BusinessLogic(409, rs.rows[0][0]));
      }
      return Done;
    }

    /** `executeUpdate`: binds the affected and changed row counts under the names given. */
    method ExecuteUpdate(query: Body, affectedRowsName: Option<string>, changedRowsName: Option<string>) returns (r: Outcome)
      modifies this, exec
      ensures Effect(r, State(), exec.variables, []) ==
              UpdateEffect(pool, old(exec.variables), old(State()), query, affectedRowsName, changedRowsName)
    {
      if !inTx {
        return Err(InvalidState(OutsideTransaction("UPDATE")));
      }
      var status :- Execute(query);
      if affectedRowsName.Some? {
        r := exec.AssignVariable(affectedRowsName.value, Int, IntV(status.affectedRows));
        if r.Err? {
          return;
        }
      }
      if changedRowsName.Some? {
        r := exec.AssignVariable(changedRowsName.value, Int, IntV(status.changedRows));
        if r.Err? {
          return;
        }
      }
      return Done;
    }

    /** `executeStatement`: dispatches on the statement kind. */
    method ExecuteStatement(kind: StatementKind) returns (r: Outcome)
      requires Valid()
      modifies this, exec, exec.response
      ensures Valid()
      ensures old(exec.response.events) <= exec.response.events
      ensures Effect(r, State(), exec.variables, exec.response.events[|old(exec.response.events)|..]) ==
              StatementEffect(pool, old(exec.variables), old(State()), kind)
    {
      ghost var s0 := State();
      ghost var vars0 := exec.variables;
      ghost var e0 := exec.response.events;
      assert e0[|e0|..] == [];
      StatementPreservesInv(pool, vars0, s0, kind);
      AssembleKeyword(vars0, pool.escape, "COMMIT");
      AssembleKeyword(vars0, pool.escape, "ROLLBACK");
      AssembleKeyword(vars0, pool.escape, "START TRANSACTION");
      match kind
      case Aggregate(query, subs) =>
        r := ExecuteAggregate(query, subs);
      case Assign(query, typeDescriptor, name) =>
        r := ExecuteAssign(query, typeDescriptor, name);
      case Check(query, requireTransaction) =>
        r := ExecuteCheck(query, requireTransaction);
      case Commit =>
        if !inTx {
          return Err(InvalidState(OutsideTransaction("COMMIT")));
        }
        var sent :- Execute(["COMMIT"]);
        inTx := false;
        return Done;
      case Rollback =>
        if !inTx {
          return Err(InvalidState(OutsideTransaction("ROLLBACK")));
        }
        var sent :- Execute(["ROLLBACK"]);
        inTx := false;
        return Done;
      case StartTransaction =>
        if inTx {
          return Err(InvalidState("executing 'START TRANSACTION' inside of a transaction."));
        }
        var sent :- Execute(["START TRANSACTION"]);
        inTx := true;
        return Done;
      case Update(query, affectedRowsName, changedRowsName) =>
        r := ExecuteUpdate(query, affectedRowsName, changedRowsName);
      case _ =>
        return Err(Fault("Error", "invalid mysql statement kind '" + KindName(kind) + "'."));
    }

    /** `finalize`: rolls back and reports an open transaction; otherwise releases an acquired connection. */
    method Finalize() returns (r: Outcome)
      requires Valid()
      modifies this
      ensures Valid()
      ensures Effect(r, State(), exec.variables, []) == FinalizeEffect(pool, exec.variables, old(State()))
    {
      FinalizeGuard(pool, exec.variables, State());
      AssembleKeyword(exec.variables, pool.escape, "ROLLBACK");
      if inTx {
        var rolledBack :- Execute(["ROLLBACK"]);
        return Err(InvalidState("started transaction was neither committed nor rollbacked."));
      }
      if connAcquired {
        released := true;
      }
      return Done;
    }
  }
}
