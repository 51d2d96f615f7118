/** The literal SQL statements JdbcBagger appends to its replay log. Values are
    inlined: strings between single quotes (not escaped), ints in decimal. */
module ReplaySql {
  import opened Text

  function Quote(v: string): string {
    "'" + v + "'"
  }

  datatype Assignment = Assignment(column: string, value: string)

  /** "c1=v1, c2=v2, ..." */
  function AssignmentList(assignments: seq<Assignment>): string {
    if assignments == [] then ""
    else if |assignments| == 1 then assignments[0].column + "=" + assignments[0].value
    else assignments[0].column + "=" + assignments[0].value + ", " + AssignmentList(assignments[1..])
  }

  /** ", v1, v2, ...": every value after the key, each preceded by ", ". */
  function ValueList(values: seq<string>): string {
    if values == [] then "" else ", " + values[0] + ValueList(values[1..])
  }

  function UpdateSql(table: string, assignments: seq<Assignment>, id: int): string {
    "UPDATE " + table + " SET " + AssignmentList(assignments) + " WHERE id=" + IntToString(id) + ";"
  }

  function InsertSql(table: string, key: int, values: seq<string>): string {
    "INSERT INTO " + table + " VALUES (" + IntToString(key) + ValueList(values) + ");"
  }

  /** An update of the given table that names the given row id. */
  predicate IsUpdateOf(s: string, table: string, id: int) {
    HasPrefix(s, "UPDATE " + table + " SET ") && HasSuffix(s, " WHERE id=" + IntToString(id) + ";")
  }

  /** An insert into the given table whose first value is the given key. */
  predicate IsInsertOf(s: string, table: string, key: int) {
    HasPrefix(s, "INSERT INTO " + table + " VALUES (" + IntToString(key) + ", ") && HasSuffix(s, ");")
  }

  /** An insert into the given table, whatever its key. */
  predicate IsInsertInto(s: string, table: string) {
    HasPrefix(s, "INSERT INTO " + table + " VALUES (")
  }

  /** A statement that writes the given table. */
  predicate IsWriteOf(s: string, table: string) {
    HasPrefix(s, "UPDATE " + table + " SET ") || IsInsertInto(s, table)
  }

  /** Regrouping a five-part concatenation. */
  lemma Regroup(h: string, b: string, x: string, y: string, z: string)
    ensures h + b + x + y + z == h + (b + (x + y + z))
    ensures h + b + x + y + z == (h + b) + (x + y + z)
  {
  }

  lemma UpdateSqlShape(table: string, assignments: seq<Assignment>, id: int)
    ensures IsUpdateOf(UpdateSql(table, assignments, id), table, id)
    ensures IsWriteOf(UpdateSql(table, assignments, id), table)
  {
    var head := "UPDATE " + table + " SET ";
    var body := AssignmentList(assignments);
    var tail := " WHERE id=" + IntToString(id) + ";";
    Regroup(head, body, " WHERE id=", IntToString(id), ";");
    PrefixOfAppend(head, body + tail);
    SuffixOfAppend(head + body, tail);
  }

  lemma InsertSqlShape(table: string, key: int, values: seq<string>)
    requires values != []
    ensures IsInsertOf(InsertSql(table, key, values), table, key)
    ensures IsInsertInto(InsertSql(table, key, values), table)
    ensures IsWriteOf(InsertSql(table, key, values), table)
  {
    var head := "INSERT INTO " + table + " VALUES (";
    var k := IntToString(key);
    var vs := ValueList(values);
    var body := head + k + vs;
    var s := InsertSql(table, key, values);
    assert s == body + ");";
    PrefixOfAppend(body, ");");
    SuffixOfAppend(body, ");");
    var p := head + k + ", ";
    var more := values[0] + ValueList(values[1..]);
    assert vs == ", " + more;
    assert body == p + more;
    PrefixOfAppend(p, more);
    PrefixTransitive(s, body, p);
    PrefixOfAppend(head, k + ", ");
    assert p == head + (k + ", ");
    PrefixTransitive(s, p, head);
  }

  lemma InsertOfIsInsertInto(s: string, table: string, key: int)
    requires IsInsertOf(s, table, key)
    ensures IsInsertInto(s, table)
  {
    var head := "INSERT INTO " + table + " VALUES (";
    PrefixOfAppend(head, IntToString(key) + ", ");
    assert head + (IntToString(key) + ", ") == head + IntToString(key) + ", ";
    PrefixTransitive(s, head + IntToString(key) + ", ", head);
  }
}
