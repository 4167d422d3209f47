/**
 * The data-quality standards: the rule catalog and the check functions of
 * src/data_quality_standards.py. Every check runs one counting query and
 * turns the count into a verdict. Each query is written the way the SQL
 * reads (WHERE in three-valued logic, GROUP BY, LEFT JOIN ... IS NULL), and
 * each check's contract states the count by what it means for the data;
 * lemmas below connect the two.
 */
module DataQuality {
  import opened Basics
  import opened Strings
  import opened Sql

  // ---------------------------------------------------------------------
  // Rule catalog
  // ---------------------------------------------------------------------

  /** One entry of a `table -> [columns]` dictionary, in insertion order. */
  datatype ColumnRule = ColumnRule(table: string, columns: seq<string>)

  datatype ForeignKeyRule = ForeignKeyRule(table: string, fkColumn: string, parentTable: string, pkColumn: string)

  const NotNullChecks: seq<ColumnRule> := [
    ColumnRule("customers", ["full_name", "date_of_birth", "gender", "phone_number", "email", "status", "password_hash"]),
    ColumnRule("customeridentitydocuments", ["customer_id", "document_number", "document_type", "nationality"]),
    ColumnRule("biometricdata", ["customer_id", "biometric_type", "template_hash"]),
    ColumnRule("accounts", ["customer_id", "account_number", "account_type", "balance", "currency", "status"]),
    ColumnRule("devices", ["device_identifier", "device_type", "status"]),
    ColumnRule("customerdevicelinks", ["customer_id", "device_id", "trust_status", "is_active_session"]),
    ColumnRule("transactionlimits", ["customer_id", "limit_type", "limit_amount", "currency"]),
    ColumnRule("dailylimittrackers", ["customer_id", "transaction_type_group", "total_daily_amount", "running_total_amount", "tracking_date"]),
    ColumnRule("transactions", ["source_account_id", "device_id", "transaction_type", "amount", "status"]),
    ColumnRule("authlogs", ["customer_id", "device_id", "auth_method", "result"]),
    ColumnRule("risktags", ["customer_id", "tag_type"])
  ]

  const UniqueChecks: seq<ColumnRule> := [
    ColumnRule("customers", ["phone_number", "email"]),
    ColumnRule("customeridentitydocuments", ["document_number"]),
    ColumnRule("biometricdata", ["customer_id"]),
    ColumnRule("accounts", ["account_number"]),
    ColumnRule("devices", ["device_identifier"])
  ]

  const ForeignKeyChecks: seq<ForeignKeyRule> := [
    ForeignKeyRule("customeridentitydocuments", "customer_id", "customers", "customer_id"),
    ForeignKeyRule("biometricdata", "customer_id", "customers", "customer_id"),
    ForeignKeyRule("accounts", "customer_id", "customers", "customer_id"),
    ForeignKeyRule("transactions", "source_account_id", "accounts", "account_id"),
    ForeignKeyRule("authlogs", "customer_id", "customers", "customer_id")
  ]

  // ---------------------------------------------------------------------
  // Results
  // ---------------------------------------------------------------------

  datatype Status = Pass | Fail | Warning | Error

  /**
   * The result dictionary of one check. `failedCount` is the optional
   * `failed_count` key; `successfulFromUntrusted` is the only entry the
   * `details` mapping ever holds; `checkName` is added by the orchestrator.
   */
  datatype CheckResult = CheckResult(
    status: Status,
    message: string,
    failedCount: Option<nat>,
    successfulFromUntrusted: Option<nat>,
    checkName: Option<string>)

  function Passed(message: string): CheckResult {
    CheckResult(Pass, message, None, None, None)
  }

  function Failed(message: string, count: nat): CheckResult {
    CheckResult(Fail, message, Some(count), None, None)
  }

  /**
   * The verdict every FAIL-kind check gives for its count: PASS without a
   * `failed_count` exactly when the count is 0, FAIL carrying the count
   * otherwise.
   */
  ghost predicate Classifies(r: CheckResult, count: nat) {
    && (r.status == Pass <==> count == 0)
    && (r.status != Pass ==> r.status == Fail)
    && r.failedCount == (if count == 0 then None else Some(count))
    && r.successfulFromUntrusted == None
    && r.checkName == None
  }

  // ---------------------------------------------------------------------
  // NOT NULL: SELECT COUNT(*) FROM table WHERE column IS NULL
  // ---------------------------------------------------------------------

  function IsNullIn(column: string): Row -> bool {
    r => Cell(r, column) == Null
  }

  function NullCount(rows: seq<Row>, column: string): nat {
    Count(rows, IsNullIn(column))
  }

  /** The positions of the rows whose `column` is NULL. */
  ghost function NullRows(rows: seq<Row>, column: string): set<int> {
    set i | 0 <= i < |rows| && Cell(rows[i], column) == Null
  }

  /** The query's count is the number of rows holding a NULL. */
  lemma NullCountIsNullRows(rows: seq<Row>, column: string)
    ensures NullCount(rows, column) == |NullRows(rows, column)|
  {
    CountIsIndexSetSize(rows, IsNullIn(column));
    assert Positions(rows, IsNullIn(column)) == NullRows(rows, column);
  }

  function CheckNullValues(db: Database, table: string, column: string): (r: Result<CheckResult, DbError>)
    ensures r.Success? <==> table in db && column in db[table].columns
    ensures r.Success? ==> Classifies(r.value, |NullRows(db[table].rows, column)|)
  {
    match Resolve(db, table, [column])
    case Failure(e) => Failure(e)
    case Success(rows) =>
      var count := NullCount(rows, column);
      NullCountIsNullRows(rows, column);
      if count == 0 then Success(Passed("[" + table + "." + column + "] No NULL values found."))
      else Success(Failed("[" + table + "." + column + "] Found " + NatToString(count) + " NULL values.", count))
  }

  // ---------------------------------------------------------------------
  // UNIQUE: SELECT COUNT(*) FROM (SELECT column FROM table GROUP BY column
  //         HAVING COUNT(*) > 1) AS duplicates
  // ---------------------------------------------------------------------

  function ColumnValues(rows: seq<Row>, column: string): (vs: seq<Value>)
    ensures |vs| == |rows|
    ensures forall i :: 0 <= i < |rows| ==> vs[i] == Cell(rows[i], column)
  {
    seq(|rows|, i requires 0 <= i < |rows| => Cell(rows[i], column))
  }

  /**
   * The groups of GROUP BY with more than one member. GROUP BY treats all
   * NULLs as one group, which is `Null` being one value here.
   */
  function DuplicateGroups(values: seq<Value>): set<Value> {
    set v | v in values && multiset(values)[v] > 1
  }

  ghost predicate Distinct<T>(xs: seq<T>) {
    forall i, j :: 0 <= i < j < |xs| ==> xs[i] != xs[j]
  }

  function CheckUniqueness(db: Database, table: string, column: string): (r: Result<CheckResult, DbError>)
    ensures r.Success? <==> table in db && column in db[table].columns
    ensures r.Success? ==> Classifies(r.value, |DuplicateGroups(ColumnValues(db[table].rows, column))|)
    ensures r.Success? ==> (r.value.status == Pass <==> Distinct(ColumnValues(db[table].rows, column)))
  {
    match Resolve(db, table, [column])
    case Failure(e) => Failure(e)
    case Success(rows) =>
      var groups := |DuplicateGroups(ColumnValues(rows, column))|;
      NoDuplicateGroupsIffDistinct(ColumnValues(rows, column));
      if groups == 0 then Success(Passed("[" + table + "." + column + "] All values are unique."))
      else Success(Failed("[" + table + "." + column + "] Found " + NatToString(groups) + " groups of duplicate values.", groups))
  }

  lemma TwoPositionsMultiplicity<T>(xs: seq<T>, i: nat, j: nat)
    requires i < j < |xs| && xs[i] == xs[j]
    ensures multiset(xs)[xs[i]] >= 2
  {
    assert xs == xs[..i] + [xs[i]] + xs[i + 1..j] + [xs[j]] + xs[j + 1..];
  }

  lemma {:induction false} DistinctMultiplicity<T>(xs: seq<T>, v: T)
    requires Distinct(xs)
    ensures multiset(xs)[v] <= 1
  {
    if xs != [] {
      assert xs == [xs[0]] + xs[1..];
      DistinctMultiplicity(xs[1..], v);
      if xs[0] == v {
        assert v !in xs[1..];
      }
    }
  }

  /** A column passes the uniqueness check exactly when no value occurs twice. */
  lemma NoDuplicateGroupsIffDistinct(values: seq<Value>)
    ensures |DuplicateGroups(values)| == 0 <==> Distinct(values)
  {
    if Distinct(values) {
      forall v | v in values
        ensures multiset(values)[v] <= 1
      {
        DistinctMultiplicity(values, v);
      }
      assert DuplicateGroups(values) == {};
    } else {
      var i, j :| 0 <= i < j < |values| && values[i] == values[j];
      TwoPositionsMultiplicity(values, i, j);
      assert values[i] in DuplicateGroups(values);
    }
  }

  /** Two NULLs in a column make one duplicate group, as GROUP BY puts all NULLs together. */
  lemma NullsFormOneGroup(values: seq<Value>, i: nat, j: nat)
    requires i < j < |values| && values[i] == Null && values[j] == Null
    ensures Null in DuplicateGroups(values)
  {
    TwoPositionsMultiplicity(values, i, j);
  }

  /**
   * Groups are counted, not rows: one value three times and another twice
   * make two duplicate groups.
   */
  lemma GroupsNotRows(a: Value, b: Value)
    requires a != b
    ensures |DuplicateGroups([a, a, a, b, b])| == 2
  {
    var values := [a, a, a, b, b];
    assert multiset(values)[a] == 3;
    assert multiset(values)[b] == 2;
    assert DuplicateGroups(values) == {a, b};
  }

  // ---------------------------------------------------------------------
  // FOREIGN KEY: SELECT COUNT(t1.fk) FROM table t1 LEFT JOIN parent t2
  //              ON t1.fk = t2.pk WHERE t1.fk IS NOT NULL AND t2.pk IS NULL
  // ---------------------------------------------------------------------

  function ForeignKeyOn(rule: ForeignKeyRule): (Row, Row) -> Tri {
    (child: Row, parent: Row) => Equal(Cell(child, rule.fkColumn), Cell(parent, rule.pkColumn))
  }

  /**
   * The query as written. `RightMissing` is `t2.pk IS NULL` with the
   * `COUNT(t1.fk)` argument being non-NULL, which is also the query's
   * `t1.fk IS NOT NULL`.
   */
  function OrphanQuery(children: seq<Row>, parents: seq<Row>, rule: ForeignKeyRule): nat {
    Count(LeftJoin(children, parents, ForeignKeyOn(rule)), RightMissing(rule.fkColumn, rule.pkColumn))
  }

  /** An orphan: a non-NULL foreign key that no parent key equals. */
  ghost predicate IsOrphan(child: Row, parents: seq<Row>, rule: ForeignKeyRule) {
    Cell(child, rule.fkColumn) != Null && forall p :: p in parents ==> Cell(p, rule.pkColumn) != Cell(child, rule.fkColumn)
  }

  ghost function OrphanCount(children: seq<Row>, parents: seq<Row>, rule: ForeignKeyRule): nat {
    Count(children, c => IsOrphan(c, parents, rule))
  }

  /** The anti-join counts exactly the orphans. */
  lemma OrphanQueryCountsOrphans(children: seq<Row>, parents: seq<Row>, rule: ForeignKeyRule)
    ensures OrphanQuery(children, parents, rule) == OrphanCount(children, parents, rule)
  {
    AntiJoinCount(children, parents, ForeignKeyOn(rule), rule.fkColumn, rule.pkColumn);
    CountSame(children, Unmatched(parents, ForeignKeyOn(rule), rule.fkColumn), c => IsOrphan(c, parents, rule));
  }

  function CheckForeignKeyIntegrity(db: Database, rule: ForeignKeyRule): (r: Result<CheckResult, DbError>)
    ensures r.Success? <==>
      && rule.table in db && rule.fkColumn in db[rule.table].columns
      && rule.parentTable in db && rule.pkColumn in db[rule.parentTable].columns
    ensures r.Success? ==> Classifies(r.value, OrphanCount(db[rule.table].rows, db[rule.parentTable].rows, rule))
  {
    match Resolve(db, rule.table, [rule.fkColumn])
    case Failure(e) => Failure(e)
    case Success(children) =>
      match Resolve(db, rule.parentTable, [rule.pkColumn])
      case Failure(e) => Failure(e)
      case Success(parents) =>
        var orphans := OrphanQuery(children, parents, rule);
        OrphanQueryCountsOrphans(children, parents, rule);
        if orphans == 0 then
          Success(Passed("FK Integrity OK: [" + rule.table + "." + rule.fkColumn + "] -> [" + rule.parentTable + "." + rule.pkColumn + "]."))
        else
          Success(Failed("FK Violation: Found " + NatToString(orphans) + " orphaned records in [" + rule.table + "].", orphans))
  }

  /**
   * A child row with a NULL foreign key is never an orphan, whatever the
   * parents hold: inserting one anywhere among the children leaves the
   * count as it was.
   */
  lemma NullForeignKeyNeverCounted(children: seq<Row>, parents: seq<Row>, rule: ForeignKeyRule, child: Row, i: nat)
    requires Cell(child, rule.fkColumn) == Null && i <= |children|
    ensures OrphanCount(children[..i] + [child] + children[i..], parents, rule) == OrphanCount(children, parents, rule)
  {
    var p := c => IsOrphan(c, parents, rule);
    CountAppend(children[..i] + [child], children[i..], p);
    CountAppend(children[..i], [child], p);
    CountAppend(children[..i], children[i..], p);
    assert children[..i] + children[i..] == children;
  }

  /** Adding parent rows never increases the orphan count. */
  lemma MoreParentsFewerOrphans(children: seq<Row>, parents: seq<Row>, extra: seq<Row>, rule: ForeignKeyRule)
    ensures OrphanCount(children, parents + extra, rule) <= OrphanCount(children, parents, rule)
  {
    CountMonotone(children, c => IsOrphan(c, parents + extra, rule), c => IsOrphan(c, parents, rule));
  }

  // ---------------------------------------------------------------------
  // Document format: SELECT COUNT(*) FROM CustomerIdentityDocuments WHERE
  //   (document_type = 'CCCD' AND document_number !~ '^\d{12}$') OR
  //   (document_type = 'Passport' AND document_number !~ '^[A-Z]\d{7}$')
  // ---------------------------------------------------------------------

  /** `^\d{12}$`, with `\d` an ASCII digit. */
  predicate IsCccdNumber(s: string) {
    |s| == 12 && AllDigits(s)
  }

  /** `^[A-Z]\d{7}$`. */
  predicate IsPassportNumber(s: string) {
    |s| == 8 && IsUpper(s[0]) && AllDigits(s[1..])
  }

  /** The WHERE clause as written, in three-valued logic. */
  function InvalidDocumentWhere(r: Row): Tri {
    Or(
      And(EqualsText(Cell(r, "document_type"), "CCCD"), NotMatching(Cell(r, "document_number"), IsCccdNumber)),
      And(EqualsText(Cell(r, "document_type"), "Passport"), NotMatching(Cell(r, "document_number"), IsPassportNumber)))
  }

  function SelectsInvalidDocument(): Row -> bool {
    r => InvalidDocumentWhere(r) == True
  }

  function InvalidDocumentQuery(rows: seq<Row>): nat {
    Count(rows, SelectsInvalidDocument())
  }

  /**
   * A badly formatted document: a CCCD whose number is not exactly 12
   * digits, or a Passport whose number is not one upper-case letter and 7
   * digits. A NULL number and any other document type are not checked.
   */
  predicate BadlyFormatted(r: Row) {
    && Cell(r, "document_number").Str?
    && var number := Cell(r, "document_number").s;
       || (Cell(r, "document_type") == Str("CCCD") && !IsCccdNumber(number))
       || (Cell(r, "document_type") == Str("Passport") && !IsPassportNumber(number))
  }

  lemma InvalidDocumentQueryMeaning(rows: seq<Row>)
    ensures InvalidDocumentQuery(rows) == Count(rows, BadlyFormatted)
  {
    forall i | 0 <= i < |rows|
      ensures SelectsInvalidDocument()(rows[i]) <==> BadlyFormatted(rows[i])
    {
      var number := Cell(rows[i], "document_number");
      if number.Null? {
        assert InvalidDocumentWhere(rows[i]) != True;
      }
    }
    CountSame(rows, SelectsInvalidDocument(), BadlyFormatted);
  }

  const DocumentColumns: seq<string> := ["document_type", "document_number"]

  function CheckDocumentFormat(db: Database): (r: Result<CheckResult, DbError>)
    ensures r.Success? <==> "customeridentitydocuments" in db && forall c :: c in DocumentColumns ==> c in db["customeridentitydocuments"].columns
    ensures r.Success? ==> Classifies(r.value, Count(db["customeridentitydocuments"].rows, BadlyFormatted))
  {
    match Resolve(db, "customeridentitydocuments", DocumentColumns)
    case Failure(e) => Failure(e)
    case Success(rows) =>
      var invalid := InvalidDocumentQuery(rows);
      InvalidDocumentQueryMeaning(rows);
      if invalid == 0 then Success(Passed("[CustomerIdentityDocuments] CCCD and Passport formats are valid."))
      else Success(Failed("[CustomerIdentityDocuments] Found " + NatToString(invalid) + " documents with invalid format.", invalid))
  }

  /**
   * A row whose number is NULL (`!~` is then unknown), or whose type is
   * neither CCCD nor Passport, never adds to the query's count, wherever
   * it is inserted among the rows.
   */
  lemma UncheckedDocumentsNeverCounted(rows: seq<Row>, r: Row, i: nat)
    requires Cell(r, "document_number") == Null || (Cell(r, "document_type") != Str("CCCD") && Cell(r, "document_type") != Str("Passport"))
    requires i <= |rows|
    ensures InvalidDocumentQuery(rows[..i] + [r] + rows[i..]) == InvalidDocumentQuery(rows)
  {
    var p := SelectsInvalidDocument();
    CountAppend(rows[..i] + [r], rows[i..], p);
    CountAppend(rows[..i], [r], p);
    CountAppend(rows[..i], rows[i..], p);
    assert rows[..i] + rows[i..] == rows;
    InvalidDocumentQueryMeaning([r]);
  }

  // ---------------------------------------------------------------------
  // Risk: high-value transactions need a successful strong authentication
  // ---------------------------------------------------------------------

  const StrongAuthMethods: seq<string> := ["sms_otp", "soft_otp", "biometric_faceid"]
  const HighValueThreshold: int := 10000000
  const DailyTotalThreshold: int := 20000000

  /** `amount > 10000000 AND status = 'completed'`. */
  function HighValueWhere(t: Row): Tri {
    And(GreaterThan(Cell(t, "amount"), HighValueThreshold), EqualsText(Cell(t, "status"), "completed"))
  }

  /** `result = 'success' AND auth_method IN ('sms_otp', 'soft_otp', 'biometric_faceid')`. */
  function StrongAuthWhere(l: Row): Tri {
    And(EqualsText(Cell(l, "result"), "success"), InTexts(Cell(l, "auth_method"), StrongAuthMethods))
  }

  function SelectsHighValue(): Row -> bool {
    t => HighValueWhere(t) == True
  }

  function SelectsStrongAuth(): Row -> bool {
    l => StrongAuthWhere(l) == True
  }

  function TransactionIdOn(): (Row, Row) -> Tri {
    (hvt: Row, sa: Row) => Equal(Cell(hvt, "transaction_id"), Cell(sa, "transaction_id"))
  }

  /**
   * `high_value_txns LEFT JOIN strongly_authed_txns ON transaction_id WHERE
   * sa.transaction_id IS NULL`, counted by `COUNT(hvt.transaction_id)`. The
   * second CTE's DISTINCT is left out: an anti-join only asks whether a
   * match exists, so duplicates on the right change nothing
   * (`HighValueQueryMeaning` depends only on membership).
   */
  function UnauthenticatedHighValueQuery(ts: seq<Row>, logs: seq<Row>): nat {
    Count(LeftJoin(Filter(ts, SelectsHighValue()), Filter(logs, SelectsStrongAuth()), TransactionIdOn()),
          RightMissing("transaction_id", "transaction_id"))
  }

  /** A completed transaction of more than 10,000,000 VND. */
  predicate IsHighValue(t: Row) {
    Cell(t, "amount").Int? && Cell(t, "amount").i > HighValueThreshold && Cell(t, "status") == Str("completed")
  }

  /** A successful authentication by SMS OTP, soft OTP or face biometrics. */
  predicate IsStrongSuccess(l: Row) {
    Cell(l, "result") == Str("success") && Cell(l, "auth_method").Str? && Cell(l, "auth_method").s in StrongAuthMethods
  }

  /** A high-value transaction no successful strong authentication refers to. */
  ghost predicate LacksStrongAuth(t: Row, logs: seq<Row>) {
    && IsHighValue(t)
    && Cell(t, "transaction_id") != Null
    && forall l :: l in logs && IsStrongSuccess(l) ==> Cell(l, "transaction_id") != Cell(t, "transaction_id")
  }

  ghost function UnauthenticatedHighValue(ts: seq<Row>, logs: seq<Row>): nat {
    Count(ts, t => LacksStrongAuth(t, logs))
  }

  /** The strong-success CTE keeps exactly the strong successes of the log. */
  lemma StrongAuthRowsMembers(logs: seq<Row>)
    ensures forall l :: l in Filter(logs, SelectsStrongAuth()) <==> l in logs && IsStrongSuccess(l)
  {
    forall l
      ensures l in Filter(logs, SelectsStrongAuth()) <==> l in logs && IsStrongSuccess(l)
    {
      FilterMembers(logs, SelectsStrongAuth(), l);
    }
  }

  lemma UnmatchedHighValueIsUnauthenticated(t: Row, logs: seq<Row>)
    ensures (SelectsHighValue()(t) && Unmatched(Filter(logs, SelectsStrongAuth()), TransactionIdOn(), "transaction_id")(t))
            <==> LacksStrongAuth(t, logs)
  {
    StrongAuthRowsMembers(logs);
  }

  lemma TransactionIdOnNeedsKey()
    ensures forall l, r :: TransactionIdOn()(l, r) == True ==> Cell(r, "transaction_id") != Null
  {
  }

  lemma HighValueQueryMeaning(ts: seq<Row>, logs: seq<Row>)
    ensures UnauthenticatedHighValueQuery(ts, logs) == UnauthenticatedHighValue(ts, logs)
  {
    var hvt := Filter(ts, SelectsHighValue());
    var sa := Filter(logs, SelectsStrongAuth());
    var unmatched := Unmatched(sa, TransactionIdOn(), "transaction_id");
    TransactionIdOnNeedsKey();
    AntiJoinCount(hvt, sa, TransactionIdOn(), "transaction_id", "transaction_id");
    CountFilter(ts, SelectsHighValue(), unmatched);
    forall i | 0 <= i < |ts|
      ensures Both(SelectsHighValue(), unmatched)(ts[i]) <==> LacksStrongAuth(ts[i], logs)
    {
      UnmatchedHighValueIsUnauthenticated(ts[i], logs);
    }
    CountSame(ts, Both(SelectsHighValue(), unmatched), t => LacksStrongAuth(t, logs));
  }

  const HighValueTransactionColumns: seq<string> := ["transaction_id", "amount", "status"]
  const AuthLogColumns: seq<string> := ["transaction_id", "result", "auth_method"]

  ghost predicate Declares(db: Database, table: string, columns: seq<string>) {
    table in db && forall c :: c in columns ==> c in db[table].columns
  }

  function CheckHighValueTxnStrongAuth(db: Database): (r: Result<CheckResult, DbError>)
    ensures r.Success? <==> Declares(db, "transactions", HighValueTransactionColumns) && Declares(db, "authlogs", AuthLogColumns)
    ensures r.Success? ==> Classifies(r.value, UnauthenticatedHighValue(db["transactions"].rows, db["authlogs"].rows))
  {
    match Resolve(db, "transactions", HighValueTransactionColumns)
    case Failure(e) => Failure(e)
    case Success(ts) =>
      match Resolve(db, "authlogs", AuthLogColumns)
      case Failure(e) => Failure(e)
      case Success(logs) =>
        var count := UnauthenticatedHighValueQuery(ts, logs);
        HighValueQueryMeaning(ts, logs);
        if count == 0 then Success(Passed("[Risk] High-value transactions (>10M VND) comply with strong auth."))
        else Success(Failed("[Risk] Found " + NatToString(count) + " high-value transactions lacking strong auth.", count))
  }

  /**
   * Only completed transactions of more than 10,000,000 can be flagged: any
   * other transaction, inserted anywhere, leaves the count unchanged. In
   * particular an amount of exactly 10,000,000 is never flagged.
   */
  lemma OnlyHighValueFlagged(ts: seq<Row>, logs: seq<Row>, t: Row, i: nat)
    requires !IsHighValue(t) && i <= |ts|
    ensures UnauthenticatedHighValue(ts[..i] + [t] + ts[i..], logs) == UnauthenticatedHighValue(ts, logs)
    ensures UnauthenticatedHighValueQuery(ts[..i] + [t] + ts[i..], logs) == UnauthenticatedHighValueQuery(ts, logs)
  {
    var p := t' => LacksStrongAuth(t', logs);
    CountAppend(ts[..i] + [t], ts[i..], p);
    CountAppend(ts[..i], [t], p);
    CountAppend(ts[..i], ts[i..], p);
    assert ts[..i] + ts[i..] == ts;
    HighValueQueryMeaning(ts[..i] + [t] + ts[i..], logs);
    HighValueQueryMeaning(ts, logs);
  }

  /**
   * A flagged transaction becomes compliant exactly when some successful
   * strong-method log refers to its id: the count drops by one when such a
   * log is added, and a log that is not a strong success changes nothing.
   */
  lemma StrongAuthClearsTransaction(t: Row, logs: seq<Row>, l: Row)
    requires LacksStrongAuth(t, logs)
    ensures LacksStrongAuth(t, logs + [l]) <==> !(IsStrongSuccess(l) && Cell(l, "transaction_id") == Cell(t, "transaction_id"))
    ensures UnauthenticatedHighValue([t], logs + [l]) == (if IsStrongSuccess(l) && Cell(l, "transaction_id") == Cell(t, "transaction_id") then 0 else 1)
  {
    assert forall x :: x in logs + [l] <==> x in logs || x == l;
  }

  /** With no strong-method success in the log, every high-value transaction with an id is flagged. */
  lemma WeakLogsClearNothing(ts: seq<Row>, logs: seq<Row>)
    requires forall i :: 0 <= i < |logs| ==> !IsStrongSuccess(logs[i])
    ensures UnauthenticatedHighValue(ts, logs) == Count(ts, t => IsHighValue(t) && Cell(t, "transaction_id") != Null)
  {
    CountSame(ts, t => LacksStrongAuth(t, logs), t => IsHighValue(t) && Cell(t, "transaction_id") != Null);
  }

  // ---------------------------------------------------------------------
  // Risk: transactions from unverified devices
  //   SELECT t.status FROM Transactions t
  //   JOIN Accounts a ON t.source_account_id = a.account_id
  //   JOIN CustomerDeviceLinks cdl ON t.device_id = cdl.device_id
  //                                AND a.customer_id = cdl.customer_id
  //   WHERE cdl.trust_status = 'unverified'
  // ---------------------------------------------------------------------

  function AccountOn(t: Row, a: Row): Tri {
    Equal(Cell(t, "source_account_id"), Cell(a, "account_id"))
  }

  function DeviceLinkOn(t: Row, a: Row, l: Row): Tri {
    And(Equal(Cell(t, "device_id"), Cell(l, "device_id")), Equal(Cell(a, "customer_id"), Cell(l, "customer_id")))
  }

  /** One row of the three-way join that survives both ON conditions and the WHERE. */
  predicate UntrustedMatch(t: Row, a: Row, l: Row) {
    AccountOn(t, a) == True && DeviceLinkOn(t, a, l) == True && EqualsText(Cell(l, "trust_status"), "unverified") == True
  }

  function LinkStatuses(t: Row, a: Row, links: seq<Row>): seq<Value> {
    if links == [] then []
    else (if UntrustedMatch(t, a, links[0]) then [Cell(t, "status")] else []) + LinkStatuses(t, a, links[1..])
  }

  function AccountStatuses(t: Row, accounts: seq<Row>, links: seq<Row>): seq<Value> {
    if accounts == [] then []
    else LinkStatuses(t, accounts[0], links) + AccountStatuses(t, accounts[1..], links)
  }

  /** The fetched rows: `t.status` once for every join row. */
  function UntrustedStatuses(ts: seq<Row>, accounts: seq<Row>, links: seq<Row>): seq<Value> {
    if ts == [] then []
    else AccountStatuses(ts[0], accounts, links) + UntrustedStatuses(ts[1..], accounts, links)
  }

  ghost predicate HasUntrustedTransaction(ts: seq<Row>, accounts: seq<Row>, links: seq<Row>) {
    exists t, a, l :: t in ts && a in accounts && l in links && UntrustedMatch(t, a, l)
  }

  /** Every fetched status belongs to a transaction of a surviving join row. */
  ghost predicate StatusesFromMatches(vs: seq<Value>, ts: seq<Row>, accounts: seq<Row>, links: seq<Row>) {
    forall v :: v in vs ==> exists t, a, l :: t in ts && a in accounts && l in links && UntrustedMatch(t, a, l) && v == Cell(t, "status")
  }

  lemma {:induction false} LinkStatusesMeaning(t: Row, a: Row, links: seq<Row>)
    ensures |LinkStatuses(t, a, links)| == 0 <==> forall l :: l in links ==> !UntrustedMatch(t, a, l)
    ensures forall v :: v in LinkStatuses(t, a, links) ==> v == Cell(t, "status") && exists l :: l in links && UntrustedMatch(t, a, l)
  {
    if links != [] {
      LinkStatusesMeaning(t, a, links[1..]);
      assert forall l :: l in links <==> l == links[0] || l in links[1..];
    }
  }

  lemma {:induction false} AccountStatusesMeaning(t: Row, accounts: seq<Row>, links: seq<Row>)
    ensures |AccountStatuses(t, accounts, links)| == 0 <==> forall a, l :: a in accounts && l in links ==> !UntrustedMatch(t, a, l)
    ensures forall v :: v in AccountStatuses(t, accounts, links) ==>
      v == Cell(t, "status") && exists a, l :: a in accounts && l in links && UntrustedMatch(t, a, l)
  {
    if accounts != [] {
      LinkStatusesMeaning(t, accounts[0], links);
      AccountStatusesMeaning(t, accounts[1..], links);
      assert forall a :: a in accounts <==> a == accounts[0] || a in accounts[1..];
    }
  }

  /**
   * The join is empty exactly when no transaction, account and device link
   * line up with an unverified link; and every fetched status is the status
   * of a transaction that does.
   */
  lemma {:induction false} UntrustedStatusesMeaning(ts: seq<Row>, accounts: seq<Row>, links: seq<Row>)
    ensures |UntrustedStatuses(ts, accounts, links)| == 0 <==> !HasUntrustedTransaction(ts, accounts, links)
    ensures StatusesFromMatches(UntrustedStatuses(ts, accounts, links), ts, accounts, links)
  {
    if ts != [] {
      AccountStatusesMeaning(ts[0], accounts, links);
      UntrustedStatusesMeaning(ts[1..], accounts, links);
      assert forall t :: t in ts <==> t == ts[0] || t in ts[1..];
    }
  }

  /** For one transaction and account, the join yields one row per unverified link of that device and owner. */
  lemma {:induction false} LinkStatusesCount(t: Row, a: Row, links: seq<Row>)
    ensures |LinkStatuses(t, a, links)| == Count(links, l => UntrustedMatch(t, a, l))
  {
    if links != [] {
      LinkStatusesCount(t, a, links[1..]);
    }
  }

  /**
   * When only the account at position `j` is the transaction's source
   * account, as a unique `account_id` ensures, the transaction contributes
   * exactly one row per unverified link of its device and that account's
   * owner.
   */
  lemma {:induction false} AccountStatusesCount(t: Row, accounts: seq<Row>, links: seq<Row>, j: nat)
    requires j < |accounts|
    requires forall i :: 0 <= i < |accounts| && i != j ==> AccountOn(t, accounts[i]) != True
    ensures |AccountStatuses(t, accounts, links)| == Count(links, l => UntrustedMatch(t, accounts[j], l))
  {
    if j == 0 {
      LinkStatusesCount(t, accounts[0], links);
      AccountStatusesMeaning(t, accounts[1..], links);
      assert forall a :: a in accounts[1..] ==> AccountOn(t, a) != True;
    } else {
      LinkStatusesMeaning(t, accounts[0], links);
      assert forall i :: 0 <= i < |accounts[1..]| && i != j - 1 ==> AccountOn(t, accounts[1..][i]) != True by {
        assert forall i :: 0 <= i < |accounts[1..]| ==> accounts[1..][i] == accounts[i + 1];
      }
      AccountStatusesCount(t, accounts[1..], links, j - 1);
    }
  }

  function IsCompletedStatus(): Value -> bool {
    v => v == Str("completed")
  }

  const UntrustedTransactionColumns: seq<string> := ["source_account_id", "device_id", "status"]
  const AccountColumns: seq<string> := ["account_id", "customer_id"]
  const DeviceLinkColumns: seq<string> := ["device_id", "customer_id", "trust_status"]

  function CheckUntrustedDeviceTransactions(db: Database): (r: Result<CheckResult, DbError>)
    ensures r.Success? <==>
      && Declares(db, "transactions", UntrustedTransactionColumns)
      && Declares(db, "accounts", AccountColumns)
      && Declares(db, "customerdevicelinks", DeviceLinkColumns)
    ensures r.Success? ==>
      var matches := UntrustedStatuses(db["transactions"].rows, db["accounts"].rows, db["customerdevicelinks"].rows);
      && r.value.status != Fail
      && (r.value.status == Pass <==> !HasUntrustedTransaction(db["transactions"].rows, db["accounts"].rows, db["customerdevicelinks"].rows))
      && (r.value.status == Pass ==> r.value.failedCount == None && r.value.successfulFromUntrusted == None)
      && (r.value.status != Pass ==>
            && r.value.status == Warning
            && r.value.failedCount == Some(|matches|)
            && r.value.successfulFromUntrusted == Some(Count(matches, IsCompletedStatus()))
            && Count(matches, IsCompletedStatus()) <= |matches|)
      && r.value.checkName == None
  {
    match Resolve(db, "transactions", UntrustedTransactionColumns)
    case Failure(e) => Failure(e)
    case Success(ts) =>
      match Resolve(db, "accounts", AccountColumns)
      case Failure(e) => Failure(e)
      case Success(accounts) =>
        match Resolve(db, "customerdevicelinks", DeviceLinkColumns)
        case Failure(e) => Failure(e)
        case Success(links) =>
          var untrusted := UntrustedStatuses(ts, accounts, links);
          UntrustedStatusesMeaning(ts, accounts, links);
          var total := |untrusted|;
          if total == 0 then Success(Passed("[Risk] No transactions found from unverified devices."))
          else
            var successful := Count(untrusted, IsCompletedStatus());
            Success(CheckResult(
              Warning,
              "[Risk] Found " + NatToString(total) + " txns from unverified devices (" + NatToString(successful) + " successful).",
              Some(total),
              Some(successful),
              None))
  }

  // ---------------------------------------------------------------------
  // Risk: a customer's completed spending of more than 20,000,000 VND in a
  // day needs a successful strong authentication that day
  // ---------------------------------------------------------------------

  /** A group of `daily_totals`: the account owner and the calendar day. */
  datatype DayKey = DayKey(customer: Value, date: Value)

  /** A row of `Transactions t JOIN Accounts a ON t.source_account_id = a.account_id WHERE t.status = 'completed'`. */
  predicate CompletedSpendJoin(t: Row, a: Row) {
    AccountOn(t, a) == True && EqualsText(Cell(t, "status"), "completed") == True
  }

  /** `GROUP BY a.customer_id, t.created_at::date`. */
  function DayKeyOf(t: Row, a: Row): DayKey {
    DayKey(Cell(a, "customer_id"), ToDate(Cell(t, "created_at")))
  }

  function AccountSpend(t: Row, accounts: seq<Row>): seq<(DayKey, Value)> {
    if accounts == [] then []
    else
      (if CompletedSpendJoin(t, accounts[0]) then [(DayKeyOf(t, accounts[0]), Cell(t, "amount"))] else [])
      + AccountSpend(t, accounts[1..])
  }

  /** The joined rows before grouping: each one's group key and amount. */
  function CompletedSpend(ts: seq<Row>, accounts: seq<Row>): seq<(DayKey, Value)> {
    if ts == [] then []
    else AccountSpend(ts[0], accounts) + CompletedSpend(ts[1..], accounts)
  }

  /** `GROUP BY` compares keys with NULLs equal, so a group is every entry with the same key. */
  function GroupAmounts(spend: seq<(DayKey, Value)>, k: DayKey): seq<Value> {
    if spend == [] then []
    else (if spend[0].0 == k then [spend[0].1] else []) + GroupAmounts(spend[1..], k)
  }

  /** `SUM`: the sum of the non-NULL amounts, NULL when there is none. */
  function SqlSum(vs: seq<Value>): Value {
    if vs == [] then Null
    else
      var rest := SqlSum(vs[1..]);
      match vs[0]
      case Int(i) => (if rest.Int? then Int(i + rest.i) else Int(i))
      case _ => rest
  }

  function GroupKeys(spend: seq<(DayKey, Value)>): set<DayKey> {
    set e | e in spend :: e.0
  }

  /** `daily_totals`: the groups kept by `HAVING SUM(t.amount) > 20000000`. */
  function DailyTotals(spend: seq<(DayKey, Value)>): set<DayKey> {
    set k | k in GroupKeys(spend) && GreaterThan(SqlSum(GroupAmounts(spend, k)), DailyTotalThreshold) == True
  }

  /** `daily_strong_auths`: the keys of completed transactions with a successful strong authentication. */
  function StrongAuthDays(ts: seq<Row>, accounts: seq<Row>, logs: seq<Row>): set<DayKey> {
    set t, a, l |
      && t in ts && a in accounts && l in logs
      && CompletedSpendJoin(t, a)
      && Equal(Cell(t, "transaction_id"), Cell(l, "transaction_id")) == True
      && StrongAuthWhere(l) == True
      :: DayKeyOf(t, a)
  }

  function DayAuthOn(dt: DayKey, dsa: DayKey): Tri {
    And(Equal(dt.customer, dsa.customer), Equal(dt.date, dsa.date))
  }

  /**
   * `daily_totals dt LEFT JOIN daily_strong_auths dsa ON customer and date
   * WHERE dsa.customer_id IS NULL`, counted by `COUNT(dt.customer_id)`.
   * Both sides are sets of keys, so the join is written on the keys: a
   * matched key never survives the WHERE, because a match needs a non-NULL
   * `dsa.customer_id`, and an unmatched key appears once.
   */
  function UnclearedDays(dt: set<DayKey>, dsa: set<DayKey>): set<DayKey> {
    set k | k in dt && k.customer != Null && forall s :: s in dsa ==> DayAuthOn(k, s) != True
  }

  function DailyTotalQuery(ts: seq<Row>, accounts: seq<Row>, logs: seq<Row>): nat {
    |UnclearedDays(DailyTotals(CompletedSpend(ts, accounts)), StrongAuthDays(ts, accounts, logs))|
  }

  /** What the customer with that key spent in completed transactions that day, as SQL sums it. */
  function DailySpend(ts: seq<Row>, accounts: seq<Row>, k: DayKey): Value {
    SqlSum(GroupAmounts(CompletedSpend(ts, accounts), k))
  }

  /** Some completed transaction of that customer on that day has a successful strong authentication. */
  ghost predicate StronglyAuthenticatedOn(ts: seq<Row>, accounts: seq<Row>, logs: seq<Row>, k: DayKey) {
    exists t, a, l ::
      && t in ts && a in accounts && l in logs
      && CompletedSpendJoin(t, a) && DayKeyOf(t, a) == k
      && Cell(t, "transaction_id") != Null && Cell(l, "transaction_id") == Cell(t, "transaction_id")
      && IsStrongSuccess(l)
  }

  /**
   * The customer/day pairs that violate the rule: a known customer whose
   * completed spending that day exceeds 20,000,000 and who has no successful
   * strong authentication that day. A day that is unknown (NULL `created_at`)
   * can never be cleared, since the join on the date is then unknown.
   */
  ghost function ViolatingDays(ts: seq<Row>, accounts: seq<Row>, logs: seq<Row>): set<DayKey> {
    set k | k in GroupKeys(CompletedSpend(ts, accounts))
      && k.customer != Null
      && DailySpend(ts, accounts, k).Int? && DailySpend(ts, accounts, k).i > DailyTotalThreshold
      && (k.date == Null || !StronglyAuthenticatedOn(ts, accounts, logs, k))
  }

  lemma StrongAuthDaysMembers(ts: seq<Row>, accounts: seq<Row>, logs: seq<Row>, k: DayKey)
    ensures k in StrongAuthDays(ts, accounts, logs) <==> StronglyAuthenticatedOn(ts, accounts, logs, k)
  {
    if k in StrongAuthDays(ts, accounts, logs) {
      var t, a, l :|
        && t in ts && a in accounts && l in logs
        && CompletedSpendJoin(t, a)
        && Equal(Cell(t, "transaction_id"), Cell(l, "transaction_id")) == True
        && StrongAuthWhere(l) == True
        && DayKeyOf(t, a) == k;
      assert IsStrongSuccess(l);
    }
    if StronglyAuthenticatedOn(ts, accounts, logs, k) {
      var t, a, l :|
        && t in ts && a in accounts && l in logs
        && CompletedSpendJoin(t, a) && DayKeyOf(t, a) == k
        && Cell(t, "transaction_id") != Null && Cell(l, "transaction_id") == Cell(t, "transaction_id")
        && IsStrongSuccess(l);
      assert StrongAuthWhere(l) == True;
    }
  }

  lemma DailyTotalQueryMeaning(ts: seq<Row>, accounts: seq<Row>, logs: seq<Row>)
    ensures UnclearedDays(DailyTotals(CompletedSpend(ts, accounts)), StrongAuthDays(ts, accounts, logs)) == ViolatingDays(ts, accounts, logs)
    ensures DailyTotalQuery(ts, accounts, logs) == |ViolatingDays(ts, accounts, logs)|
  {
    var dt := DailyTotals(CompletedSpend(ts, accounts));
    var dsa := StrongAuthDays(ts, accounts, logs);
    forall k
      ensures k in UnclearedDays(dt, dsa) <==> k in ViolatingDays(ts, accounts, logs)
    {
      StrongAuthDaysMembers(ts, accounts, logs, k);
      if k.customer != Null && k.date != Null {
        assert (forall s :: s in dsa ==> DayAuthOn(k, s) != True) <==> k !in dsa by {
          if k in dsa {
            assert DayAuthOn(k, k) == True;
          }
        }
      }
    }
  }

  const DailyTransactionColumns: seq<string> := ["transaction_id", "source_account_id", "status", "amount", "created_at"]

  function CheckDailyTotalOver20mAuth(db: Database): (r: Result<CheckResult, DbError>)
    ensures r.Success? <==>
      && Declares(db, "transactions", DailyTransactionColumns)
      && Declares(db, "accounts", AccountColumns)
      && Declares(db, "authlogs", AuthLogColumns)
    ensures r.Success? ==> Classifies(r.value, |ViolatingDays(db["transactions"].rows, db["accounts"].rows, db["authlogs"].rows)|)
  {
    match Resolve(db, "transactions", DailyTransactionColumns)
    case Failure(e) => Failure(e)
    case Success(ts) =>
      match Resolve(db, "accounts", AccountColumns)
      case Failure(e) => Failure(e)
      case Success(accounts) =>
        match Resolve(db, "authlogs", AuthLogColumns)
        case Failure(e) => Failure(e)
        case Success(logs) =>
          var count := DailyTotalQuery(ts, accounts, logs);
          DailyTotalQueryMeaning(ts, accounts, logs);
          if count == 0 then Success(Passed("[Risk] Daily totals >20M VND comply with strong auth."))
          else Success(Failed("[Risk] Found " + NatToString(count) + " customer/day instances violating the >20M daily total rule.", count))
  }

  /**
   * The rule counts customer/day pairs, not transactions: when every
   * completed transaction falls on the same customer and day, at most one
   * violation is reported, however many transactions make up the total.
   */
  lemma SameDaySpendIsOneViolation(ts: seq<Row>, accounts: seq<Row>, logs: seq<Row>, k: DayKey)
    requires forall i :: 0 <= i < |CompletedSpend(ts, accounts)| ==> CompletedSpend(ts, accounts)[i].0 == k
    ensures |ViolatingDays(ts, accounts, logs)| <= 1
  {
    assert ViolatingDays(ts, accounts, logs) <= {k};
    SubsetCardinality(ViolatingDays(ts, accounts, logs), {k});
  }

  /**
   * And exactly one is reported when that customer's completed spending
   * that day exceeds 20,000,000 and no successful strong authentication
   * clears it.
   */
  lemma SameDayOverLimitIsOneViolation(ts: seq<Row>, accounts: seq<Row>, logs: seq<Row>, k: DayKey)
    requires forall i :: 0 <= i < |CompletedSpend(ts, accounts)| ==> CompletedSpend(ts, accounts)[i].0 == k
    requires k.customer != Null && k in DailyTotals(CompletedSpend(ts, accounts))
    requires !StronglyAuthenticatedOn(ts, accounts, logs, k)
    ensures ViolatingDays(ts, accounts, logs) == {k}
    ensures DailyTotalQuery(ts, accounts, logs) == 1
  {
    assert ViolatingDays(ts, accounts, logs) <= {k};
    assert k in ViolatingDays(ts, accounts, logs);
    DailyTotalQueryMeaning(ts, accounts, logs);
  }

  /** Each customer/day pair counts at most once: there are no more violations than pairs with completed spending. */
  lemma ViolationsAtMostDays(ts: seq<Row>, accounts: seq<Row>, logs: seq<Row>)
    ensures |ViolatingDays(ts, accounts, logs)| <= |GroupKeys(CompletedSpend(ts, accounts))|
  {
    SubsetCardinality(ViolatingDays(ts, accounts, logs), GroupKeys(CompletedSpend(ts, accounts)));
  }

  lemma SubsetCardinality<T>(a: set<T>, b: set<T>)
    requires a <= b
    ensures |a| <= |b|
  {
    assert b == a + (b - a);
  }

  /** A total on an unknown day is reported whenever it exceeds the limit, whatever the logs say. */
  lemma UnknownDayNeverCleared(ts: seq<Row>, accounts: seq<Row>, logs: seq<Row>, k: DayKey)
    requires k in DailyTotals(CompletedSpend(ts, accounts))
    requires k.customer != Null && k.date == Null
    ensures k in UnclearedDays(DailyTotals(CompletedSpend(ts, accounts)), StrongAuthDays(ts, accounts, logs))
  {
  }
}
