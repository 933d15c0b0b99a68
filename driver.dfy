/** What the interpreter needs from the MySQL driver, as an oracle: connection acquisition, escaping,
    query execution and pool shutdown. */
module Driver {
  import opened Errors

  /** What `connection.query` reports: column names, rows (cells in column order, as text), and the
      counters of the OK packet a mutating statement returns. */
  datatype ResultSetData = ResultSetData(fields: seq<string>, rows: seq<seq<string>>, affectedRows: int, changedRows: int)

  /** A result set whose every row has one cell per column. */
  type ResultSet = r: ResultSetData | forall i :: 0 <= i < |r.rows| ==> |r.rows[i]| == |r.fields|
    witness ResultSetData([], [], 0, 0)

  datatype Reply = Rows(resultSet: ResultSet) | DriverError(message: string)

  /** A connection pool built from one module descriptor.
      acquireError: the error `pool.getConnection` reports, if it fails;
      query: the database, answering an SQL text given every text sent before it on the connection;
      escape: `mysql.escape` on strings;
      endError: the error `pool.end` reports, if it fails. */
  datatype Pool = Pool(
    acquireError: Option<string>,
    query: (seq<string>, string) -> Reply,
    escape: string -> string,
    endError: Option<string>)
}
