/**
 * The slice of PostgreSQL semantics the audit queries rely on, over tables
 * held in memory: NULL, three-valued logic in WHERE and ON clauses, schema
 * resolution (a query naming an unknown table or column is an error), and
 * LEFT JOIN with NULL-extended rows.
 *
 * Identifiers are kept lower-case, as PostgreSQL folds unquoted identifiers,
 * so the queries' `Transactions` and the catalog's `transactions` name the
 * same table.
 */
module Sql {
  import opened Basics

  /** A cell of a row. `Timestamp` carries its calendar day separately so that `::date` is a projection. */
  datatype Value =
    | Null
    | Int(i: int)
    | Str(s: string)
    | Bool(b: bool)
    | Date(day: int)
    | Timestamp(date: int, second: int)

  /** A row maps column names to cells; a column the map lacks reads as NULL. */
  type Row = map<string, Value>

  datatype Table = Table(columns: set<string>, rows: seq<Row>)

  type Database = map<string, Table>

  /** What a query execution can raise (psycopg2.Error in the source). */
  datatype DbError =
    | UndefinedTable(table: string)
    | UndefinedColumn(table: string, column: string)
    | ConnectionLost

  function Cell(r: Row, column: string): Value {
    if column in r then r[column] else Null
  }

  /** The row a LEFT JOIN supplies when nothing matches: every column NULL. */
  const NullRow: Row := map[]

  /** SQL's truth values. WHERE and ON keep a row only when the condition is `True`. */
  datatype Tri = True | False | Unknown

  function And(a: Tri, b: Tri): Tri {
    if a == False || b == False then False
    else if a == True && b == True then True
    else Unknown
  }

  function Or(a: Tri, b: Tri): Tri {
    if a == True || b == True then True
    else if a == False && b == False then False
    else Unknown
  }

  /** `a = b`: unknown when either side is NULL. */
  function Equal(a: Value, b: Value): (t: Tri)
    ensures t == True <==> a != Null && a == b
  {
    if a.Null? || b.Null? then Unknown
    else if a == b then True
    else False
  }

  /** `v = 'literal'`. */
  function EqualsText(v: Value, literal: string): Tri {
    Equal(v, Str(literal))
  }

  /** `v > n` on a numeric column. */
  function GreaterThan(v: Value, n: int): Tri {
    match v
    case Null => Unknown
    case Int(i) => if i > n then True else False
    case _ => False
  }

  /** `v IN ('a', 'b', ...)`. */
  function InTexts(v: Value, options: seq<string>): Tri {
    match v
    case Null => Unknown
    case Str(s) => if s in options then True else False
    case _ => False
  }

  /** `v !~ pattern`, where `matches` decides whether a text matches the pattern. */
  function NotMatching(v: Value, matches: string -> bool): Tri {
    match v
    case Null => Unknown
    case Str(s) => if matches(s) then False else True
    case _ => Unknown
  }

  /** `v::date`. */
  function ToDate(v: Value): Value {
    match v
    case Timestamp(d, _) => Date(d)
    case Date(d) => Date(d)
    case _ => Null
  }

  /**
   * Resolves the table a query reads, failing as PostgreSQL does when the
   * table or one of the columns the query names is not in the schema.
   */
  function Resolve(db: Database, table: string, columns: seq<string>): (r: Result<seq<Row>, DbError>)
    ensures r.Success? <==> table in db && forall c :: c in columns ==> c in db[table].columns
    ensures r.Success? ==> r.value == db[table].rows
  {
    if table !in db then Failure(UndefinedTable(table))
    else if columns == [] then Success(db[table].rows)
    else if columns[0] !in db[table].columns then Failure(UndefinedColumn(table, columns[0]))
    else Resolve(db, table, columns[1..])
  }

  /** The rows of `right` that the ON condition pairs with `l`. */
  function Matches(l: Row, right: seq<Row>, on: (Row, Row) -> Tri): seq<Row> {
    Filter(right, OnHolds(l, on))
  }

  function OnHolds(l: Row, on: (Row, Row) -> Tri): Row -> bool {
    r => on(l, r) == True
  }

  function PairWith(l: Row, rs: seq<Row>): (ps: seq<(Row, Row)>)
    ensures |ps| == |rs|
    ensures forall i :: 0 <= i < |ps| ==> ps[i] == (l, rs[i])
  {
    seq(|rs|, i requires 0 <= i < |rs| => (l, rs[i]))
  }

  /**
   * `left LEFT JOIN right ON on`: each left row with every right row it
   * matches, or once with the all-NULL row when it matches none.
   */
  function LeftJoin(left: seq<Row>, right: seq<Row>, on: (Row, Row) -> Tri): seq<(Row, Row)> {
    if left == [] then []
    else
      var ms := Matches(left[0], right, on);
      (if ms == [] then [(left[0], NullRow)] else PairWith(left[0], ms)) + LeftJoin(left[1..], right, on)
  }

  /**
   * The WHERE of an anti-join, `r.rightKey IS NULL`, together with
   * `COUNT(l.leftKey)`, which skips rows whose counted column is NULL.
   */
  function RightMissing(leftKey: string, rightKey: string): ((Row, Row)) -> bool {
    (p: (Row, Row)) => Cell(p.1, rightKey) == Null && Cell(p.0, leftKey) != Null
  }

  /** A left row with a non-NULL key that no right row matches. */
  function Unmatched(right: seq<Row>, on: (Row, Row) -> Tri, leftKey: string): Row -> bool {
    l => Cell(l, leftKey) != Null && forall r :: r in right ==> on(l, r) != True
  }

  /**
   * The anti-join count. When the ON condition can only match right rows
   * whose key is non-NULL, `SELECT COUNT(l.leftKey) FROM left LEFT JOIN right
   * ON on WHERE r.rightKey IS NULL` counts exactly the left rows with a
   * non-NULL key that match nothing: a matched left row never survives the
   * WHERE, however many right rows it matches.
   */
  lemma {:induction false} AntiJoinCount(left: seq<Row>, right: seq<Row>, on: (Row, Row) -> Tri, leftKey: string, rightKey: string)
    requires forall l, r :: on(l, r) == True ==> Cell(r, rightKey) != Null
    ensures Count(LeftJoin(left, right, on), RightMissing(leftKey, rightKey)) == Count(left, Unmatched(right, on, leftKey))
  {
    if left != [] {
      var l := left[0];
      var ms := Matches(l, right, on);
      var head := if ms == [] then [(l, NullRow)] else PairWith(l, ms);
      var tail := LeftJoin(left[1..], right, on);
      assert LeftJoin(left, right, on) == head + tail;
      CountAppend(head, tail, RightMissing(leftKey, rightKey));
      AntiJoinCount(left[1..], right, on, leftKey, rightKey);
      if ms == [] {
        forall r | r in right
          ensures on(l, r) != True
        {
          FilterMembers(right, OnHolds(l, on), r);
        }
        assert Unmatched(right, on, leftKey)(l) == (Cell(l, leftKey) != Null);
      } else {
        FilterMembers(right, OnHolds(l, on), ms[0]);
        assert !Unmatched(right, on, leftKey)(l);
        forall i | 0 <= i < |head|
          ensures !RightMissing(leftKey, rightKey)(head[i])
        {
          FilterMembers(right, OnHolds(l, on), ms[i]);
        }
        CountZero(head, RightMissing(leftKey, rightKey));
      }
    }
  }
}
