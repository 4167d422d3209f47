/**
 * The audit run of src/monitoring_audit.py: the fixed-order plan of checks
 * built from the rule catalog, the run that stops at the first database
 * error but keeps the results gathered so far, and the two reports made
 * from those results — the summary table (PASS rows first, messages cut to
 * 28 characters, pass/fail counts) and the audit log (the passed/failed
 * partition). Console and file output are left out; the reports are the
 * values that would be printed or written.
 */
module MonitoringAudit {
  import opened Basics
  import opened Strings
  import opened Sql
  import opened DataQuality

  // ---------------------------------------------------------------------
  // The plan of checks
  // ---------------------------------------------------------------------

  /** One call `main` makes, with the arguments it passes. */
  datatype Check =
    | NotNull(table: string, column: string)
    | Unique(table: string, column: string)
    | ForeignKey(rule: ForeignKeyRule)
    | DocumentFormat
    | HighValueStrongAuth
    | UntrustedDevices
    | DailyTotalStrongAuth

  /** The `check_name` the orchestrator stores in the result. */
  function Name(c: Check): string {
    match c
    case NotNull(t, col) => "check_null_" + t + "_" + col
    case Unique(t, col) => "check_unique_" + t + "_" + col
    case ForeignKey(rule) => "check_fk_" + rule.table + "_" + rule.fkColumn
    case DocumentFormat => "check_document_format"
    case HighValueStrongAuth => "risk_high_value_txn_strong_auth"
    case UntrustedDevices => "risk_untrusted_device_transactions"
    case DailyTotalStrongAuth => "risk_daily_total_over_20m_auth"
  }

  /** The check function each step calls. */
  function Run(db: Database, c: Check): Result<CheckResult, DbError> {
    match c
    case NotNull(t, col) => CheckNullValues(db, t, col)
    case Unique(t, col) => CheckUniqueness(db, t, col)
    case ForeignKey(rule) => CheckForeignKeyIntegrity(db, rule)
    case DocumentFormat => CheckDocumentFormat(db)
    case HighValueStrongAuth => CheckHighValueTxnStrongAuth(db)
    case UntrustedDevices => CheckUntrustedDeviceTransactions(db)
    case DailyTotalStrongAuth => CheckDailyTotalOver20mAuth(db)
  }

  datatype Catalog = Catalog(notNull: seq<ColumnRule>, unique: seq<ColumnRule>, foreignKeys: seq<ForeignKeyRule>)

  const ShownCatalog: Catalog := Catalog(NotNullChecks, UniqueChecks, ForeignKeyChecks)

  function ColumnCheck(table: string, column: string, unique: bool): Check {
    if unique then Unique(table, column) else NotNull(table, column)
  }

  /** The inner loop over one table's columns. */
  function ColumnChecks(rule: ColumnRule, unique: bool): (cs: seq<Check>)
    ensures |cs| == |rule.columns|
    ensures forall j :: 0 <= j < |cs| ==> cs[j] == ColumnCheck(rule.table, rule.columns[j], unique)
  {
    seq(|rule.columns|, j requires 0 <= j < |rule.columns| => ColumnCheck(rule.table, rule.columns[j], unique))
  }

  /** The nested loops over a `table -> [columns]` catalog, tables in insertion order. */
  function ColumnSection(rules: seq<ColumnRule>, unique: bool): seq<Check> {
    if rules == [] then []
    else ColumnChecks(rules[0], unique) + ColumnSection(rules[1..], unique)
  }

  function ForeignKeySection(fks: seq<ForeignKeyRule>): (cs: seq<Check>)
    ensures |cs| == |fks|
    ensures forall i :: 0 <= i < |cs| ==> cs[i] == ForeignKey(fks[i])
  {
    seq(|fks|, i requires 0 <= i < |fks| => ForeignKey(fks[i]))
  }

  const RiskChecks: seq<Check> := [HighValueStrongAuth, UntrustedDevices, DailyTotalStrongAuth]

  /** Every check `main` runs, in order. */
  function Plan(cat: Catalog): seq<Check> {
    ColumnSection(cat.notNull, false) + ColumnSection(cat.unique, true) + ForeignKeySection(cat.foreignKeys) + [DocumentFormat] + RiskChecks
  }

  function ColumnCount(rules: seq<ColumnRule>): nat {
    if rules == [] then 0 else |rules[0].columns| + ColumnCount(rules[1..])
  }

  lemma {:induction false} ColumnSectionLength(rules: seq<ColumnRule>, unique: bool)
    ensures |ColumnSection(rules, unique)| == ColumnCount(rules)
  {
    if rules != [] {
      ColumnSectionLength(rules[1..], unique);
    }
  }

  /** The plan has one step per catalog column, per foreign key, and four more. */
  lemma PlanLength(cat: Catalog)
    ensures |Plan(cat)| == ColumnCount(cat.notNull) + ColumnCount(cat.unique) + |cat.foreignKeys| + 4
  {
    ColumnSectionLength(cat.notNull, false);
    ColumnSectionLength(cat.unique, true);
  }

  /** With the catalog as shipped: 47 null checks, 6 uniqueness checks, 5 foreign keys, 1 format check, 3 risk checks. */
  lemma ShownPlanLength()
    ensures |Plan(ShownCatalog)| == 47 + 6 + 5 + 1 + 3
  {
    PlanLength(ShownCatalog);
    ShownColumnCounts();
  }

  lemma ShownColumnCounts()
    ensures ColumnCount(NotNullChecks) == 47 && ColumnCount(UniqueChecks) == 6
  {
    ShownNullHeadCount();
    ColumnCountFrom(NotNullChecks, 0);
    assert NotNullChecks[0..] == NotNullChecks;
    ShownUniqueCount();
  }

  lemma ShownUniqueCount()
    ensures ColumnCount(UniqueChecks) == 6
  {
    var u := UniqueChecks;
    assert u[5..] == [];
    ColumnCountFrom(u, 4);
    assert ColumnCount(u[4..]) == 1;
    ColumnCountFrom(u, 3);
    assert ColumnCount(u[3..]) == 2;
    ColumnCountFrom(u, 2);
    assert ColumnCount(u[2..]) == 3;
    ColumnCountFrom(u, 1);
    assert ColumnCount(u[1..]) == 4;
    ColumnCountFrom(u, 0);
    assert u[0..] == u;
  }

  /** The null catalog without its first table holds 40 columns. */
  lemma ShownNullHeadCount()
    ensures ColumnCount(NotNullChecks[1..]) == 40
  {
    var n := NotNullChecks;
    ShownNullTailCount();
    ColumnCountFrom(n, 5);
    assert ColumnCount(n[5..]) == 24;
    ColumnCountFrom(n, 4);
    assert ColumnCount(n[4..]) == 27;
    ColumnCountFrom(n, 3);
    assert ColumnCount(n[3..]) == 33;
    ColumnCountFrom(n, 2);
    assert ColumnCount(n[2..]) == 36;
    ColumnCountFrom(n, 1);
    assert ColumnCount(n[1..]) == 40;
  }

  /** The null catalog's last five tables hold 20 columns. */
  lemma ShownNullTailCount()
    ensures ColumnCount(NotNullChecks[6..]) == 20
  {
    var n := NotNullChecks;
    assert n[11..] == [];
    ColumnCountFrom(n, 10);
    assert ColumnCount(n[10..]) == 2;
    ColumnCountFrom(n, 9);
    assert ColumnCount(n[9..]) == 6;
    ColumnCountFrom(n, 8);
    assert ColumnCount(n[8..]) == 11;
    ColumnCountFrom(n, 7);
    assert ColumnCount(n[7..]) == 16;
    ColumnCountFrom(n, 6);
    assert ColumnCount(n[6..]) == 20;
  }

  lemma ColumnCountFrom(rules: seq<ColumnRule>, k: nat)
    requires k < |rules|
    ensures ColumnCount(rules[k..]) == |rules[k].columns| + ColumnCount(rules[k + 1..])
  {
    assert rules[k..][1..] == rules[k + 1..];
  }

  /** Splitting the flattened section at one table. */
  lemma {:induction false} ColumnSectionSplit(rules: seq<ColumnRule>, unique: bool, k: nat)
    requires k < |rules|
    ensures ColumnSection(rules, unique) == ColumnSection(rules[..k], unique) + ColumnChecks(rules[k], unique) + ColumnSection(rules[k + 1..], unique)
  {
    if k == 0 {
      assert rules[..0] == [];
    } else {
      ColumnSectionSplit(rules[1..], unique, k - 1);
      assert rules[..k][1..] == rules[1..][..k - 1];
      assert rules[1..][k - 1] == rules[k];
      assert rules[1..][k..] == rules[k + 1..];
    }
  }

  lemma ColumnSectionSnoc(rules: seq<ColumnRule>, unique: bool, k: nat)
    requires k < |rules|
    ensures ColumnSection(rules[..k + 1], unique) == ColumnSection(rules[..k], unique) + ColumnChecks(rules[k], unique)
  {
    ColumnSectionSplit(rules[..k + 1], unique, k);
    assert rules[..k + 1][..k] == rules[..k];
    assert rules[..k + 1][k + 1..] == [];
  }

  // ---------------------------------------------------------------------
  // Running the plan
  // ---------------------------------------------------------------------

  /**
   * The database as the audit's cursor sees it. It answers the first
   * `liveQueries` queries and raises for every later one, which models a
   * connection lost part-way; a failed `psycopg2.connect` is `liveQueries
   * == 0`. A query naming a missing table or column raises as well.
   */
  datatype Session = Session(db: Database, liveQueries: nat)

  /** The outcome of the plan's step number `i`. */
  function Step(s: Session, i: nat, c: Check): Result<CheckResult, DbError> {
    if i < s.liveQueries then Run(s.db, c) else Failure(ConnectionLost)
  }

  /** What a run of the plan is built from: the outcome of each numbered step. */
  type Executor = (nat, Check) -> Result<CheckResult, DbError>

  function SessionSteps(s: Session): Executor {
    (i: nat, c: Check) => Step(s, i, c)
  }

  /** `result['check_name'] = check_name`. */
  function Named(r: CheckResult, c: Check): CheckResult {
    r.(checkName := Some(Name(c)))
  }

  /**
   * The results `main` holds once the run is over, for the plan steps
   * numbered from `start`: named results up to the first step that raises.
   */
  function AuditFrom(step: Executor, plan: seq<Check>, start: nat): seq<CheckResult>
    decreases |plan|
  {
    if plan == [] then []
    else
      match step(start, plan[0])
      case Failure(_) => []
      case Success(r) => [Named(r, plan[0])] + AuditFrom(step, plan[1..], start + 1)
  }

  function Audit(step: Executor, plan: seq<Check>): seq<CheckResult> {
    AuditFrom(step, plan, 0)
  }

  function AuditResults(s: Session, plan: seq<Check>): seq<CheckResult> {
    Audit(SessionSteps(s), plan)
  }

  /** Running a longer plan, when the first part raised nothing, continues where the first part ended. */
  lemma {:induction false} AuditFromAppend(step: Executor, p: seq<Check>, q: seq<Check>, start: nat)
    requires |AuditFrom(step, p, start)| == |p|
    ensures AuditFrom(step, p + q, start) == AuditFrom(step, p, start) + AuditFrom(step, q, start + |p|)
    decreases |p|
  {
    if p == [] {
      assert p + q == q;
    } else {
      assert (p + q)[0] == p[0];
      assert (p + q)[1..] == p[1..] + q;
      var r := step(start, p[0]);
      if r.Success? {
        AuditFromAppend(step, p[1..], q, start + 1);
        assert AuditFrom(step, p + q, start) == [Named(r.value, p[0])] + AuditFrom(step, p[1..] + q, start + 1);
      }
    }
  }

  /** The results kept after a database error: exactly the first results, in plan order. */
  lemma {:induction false} AuditFromPrefix(step: Executor, plan: seq<Check>, start: nat)
    ensures KeptFrom(step, plan, start, AuditFrom(step, plan, start))
    decreases |plan|
  {
    if plan != [] && step(start, plan[0]).Success? {
      AuditFromPrefix(step, plan[1..], start + 1);
      KeptCons(step, plan, start, AuditFrom(step, plan[1..], start + 1));
    }
  }

  /**
   * `results` are what a run of `plan` from step `start` keeps: result `i`
   * is step `i`'s result named after its check, and when fewer results than
   * steps remain, the step right after the last result raised.
   */
  predicate KeptFrom(step: Executor, plan: seq<Check>, start: nat, results: seq<CheckResult>) {
    && |results| <= |plan|
    && (forall i :: 0 <= i < |results| ==>
          step(start + i, plan[i]).Success? && results[i] == Named(step(start + i, plan[i]).value, plan[i]))
    && (|results| < |plan| ==> step(start + |results|, plan[|results|]).Failure?)
  }

  lemma KeptCons(step: Executor, plan: seq<Check>, start: nat, rest: seq<CheckResult>)
    requires plan != [] && step(start, plan[0]).Success?
    requires KeptFrom(step, plan[1..], start + 1, rest)
    ensures KeptFrom(step, plan, start, [Named(step(start, plan[0]).value, plan[0])] + rest)
  {
    var all := [Named(step(start, plan[0]).value, plan[0])] + rest;
    forall i | 1 <= i < |all|
      ensures step(start + i, plan[i]).Success? && all[i] == Named(step(start + i, plan[i]).value, plan[i])
    {
      assert plan[i] == plan[1..][i - 1];
      assert all[i] == rest[i - 1];
    }
    if |all| < |plan| {
      assert plan[|all|] == plan[1..][|rest|];
    }
  }

  lemma PartialResultsSurvive(s: Session, plan: seq<Check>)
    ensures |AuditResults(s, plan)| <= |plan|
    ensures forall i :: 0 <= i < |AuditResults(s, plan)| ==>
      i < s.liveQueries && Run(s.db, plan[i]).Success? && AuditResults(s, plan)[i] == Named(Run(s.db, plan[i]).value, plan[i])
    ensures |AuditResults(s, plan)| < |plan| ==>
      |AuditResults(s, plan)| == s.liveQueries || Run(s.db, plan[|AuditResults(s, plan)|]).Failure?
  {
    AuditFromPrefix(SessionSteps(s), plan, 0);
    var n := |AuditResults(s, plan)|;
    forall i | 0 <= i < |plan|
      ensures SessionSteps(s)(i, plan[i]) == Step(s, i, plan[i])
    {
    }
    if 0 < n {
      assert Step(s, n - 1, plan[n - 1]).Success?;
    }
  }

  /**
   * On a schema every check can query, the audit keeps the first
   * `liveQueries` results: a connection lost before step `k` leaves exactly
   * `k` results.
   */
  lemma ResultsUntilConnectionLost(s: Session, plan: seq<Check>)
    requires forall i :: 0 <= i < |plan| ==> Run(s.db, plan[i]).Success?
    ensures |AuditResults(s, plan)| == if s.liveQueries < |plan| then s.liveQueries else |plan|
  {
    PartialResultsSurvive(s, plan);
    var n := |AuditResults(s, plan)|;
    if 0 < n {
      var last := AuditResults(s, plan)[n - 1];
      assert n - 1 < s.liveQueries;
    }
    if n < |plan| {
      assert Run(s.db, plan[n]).Success?;
    }
  }

  /** The run has stopped within `prefix`: some step of it raised, and `results` are what was kept. */
  predicate StoppedWithin(step: Executor, prefix: seq<Check>, results: seq<CheckResult>) {
    |results| < |prefix| && Audit(step, prefix) == results
  }

  /** Once a step has raised, the steps after it change nothing. */
  lemma {:induction false} AuditFromStopped(step: Executor, p: seq<Check>, q: seq<Check>, start: nat)
    requires |AuditFrom(step, p, start)| < |p|
    ensures AuditFrom(step, p + q, start) == AuditFrom(step, p, start)
    decreases |p|
  {
    assert (p + q)[0] == p[0];
    assert (p + q)[1..] == p[1..] + q;
    if step(start, p[0]).Success? {
      AuditFromStopped(step, p[1..], q, start + 1);
    }
  }

  /** A run that stopped inside `mid` stops the same way whatever follows `mid`. */
  lemma StoppedInside(step: Executor, before: seq<Check>, mid: seq<Check>, after: seq<Check>, results: seq<CheckResult>)
    requires StoppedWithin(step, before + mid, results)
    ensures StoppedWithin(step, before + (mid + after), results)
  {
    AuditFromStopped(step, before + mid, after, 0);
    assert before + mid + after == before + (mid + after);
  }

  /** One step of `main`: run the check, name its result and append it, or stop on an error. */
  method Attempt(step: Executor, c: Check, ghost done: seq<Check>, results: seq<CheckResult>) returns (next: seq<CheckResult>, stopped: bool)
    requires results == Audit(step, done) && |results| == |done|
    ensures !stopped ==> next == Audit(step, done + [c]) && |next| == |done| + 1
    ensures stopped ==> next == results && StoppedWithin(step, done + [c], results)
  {
    var outcome := step(|results|, c);
    if outcome.Failure? {
      AuditFromAppend(step, done, [c], 0);
      return results, true;
    }
    var result := outcome.value.(checkName := Some(Name(c)));
    next := results + [result];
    stopped := false;
    AuditFromAppend(step, done, [c], 0);
  }

  /** A loop over a list of checks, such as the foreign-key list or the risk checks. */
  method RunChecks(step: Executor, checks: seq<Check>, ghost done: seq<Check>, results: seq<CheckResult>) returns (next: seq<CheckResult>, stopped: bool)
    requires results == Audit(step, done) && |results| == |done|
    ensures !stopped ==> next == Audit(step, done + checks) && |next| == |done| + |checks|
    ensures stopped ==> StoppedWithin(step, done + checks, next)
  {
    next := results;
    var i := 0;
    assert done + checks[..0] == done;
    while i < |checks|
      invariant 0 <= i <= |checks|
      invariant next == Audit(step, done + checks[..i]) && |next| == |done| + i
    {
      var after, halted := Attempt(step, checks[i], done + checks[..i], next);
      if halted {
        StoppedInside(step, done + checks[..i], [checks[i]], checks[i + 1..], after);
        assert done + checks == done + checks[..i] + ([checks[i]] + checks[i + 1..]);
        return after, true;
      }
      assert done + checks[..i] + [checks[i]] == done + checks[..i + 1];
      next, i := after, i + 1;
    }
    assert checks[..i] == checks;
    stopped := false;
  }

  lemma SectionStopped(step: Executor, done: seq<Check>, rules: seq<ColumnRule>, unique: bool, k: nat, results: seq<CheckResult>)
    requires k < |rules|
    requires StoppedWithin(step, done + ColumnSection(rules[..k], unique) + ColumnChecks(rules[k], unique), results)
    ensures StoppedWithin(step, done + ColumnSection(rules, unique), results)
  {
    StoppedInside(step, done + ColumnSection(rules[..k], unique), ColumnChecks(rules[k], unique), ColumnSection(rules[k + 1..], unique), results);
    SectionSplitAt(done, rules, unique, k);
  }

  lemma SectionSplitAt(done: seq<Check>, rules: seq<ColumnRule>, unique: bool, k: nat)
    requires k < |rules|
    ensures done + ColumnSection(rules, unique) == done + ColumnSection(rules[..k], unique) + (ColumnChecks(rules[k], unique) + ColumnSection(rules[k + 1..], unique))
  {
    ColumnSectionSplit(rules, unique, k);
  }

  lemma SectionAdvance(done: seq<Check>, rules: seq<ColumnRule>, unique: bool, k: nat)
    requires k < |rules|
    ensures done + ColumnSection(rules[..k], unique) + ColumnChecks(rules[k], unique) == done + ColumnSection(rules[..k + 1], unique)
  {
    ColumnSectionSnoc(rules, unique, k);
  }

  /** The nested loops over a `table -> [columns]` catalog. */
  method RunColumnSection(step: Executor, rules: seq<ColumnRule>, unique: bool, ghost done: seq<Check>, results: seq<CheckResult>)
    returns (next: seq<CheckResult>, stopped: bool)
    requires results == Audit(step, done) && |results| == |done|
    ensures !stopped ==> next == Audit(step, done + ColumnSection(rules, unique)) && |next| == |done| + |ColumnSection(rules, unique)|
    ensures stopped ==> StoppedWithin(step, done + ColumnSection(rules, unique), next)
  {
    next := results;
    var k := 0;
    assert done + ColumnSection(rules[..0], unique) == done;
    while k < |rules|
      invariant 0 <= k <= |rules|
      invariant next == Audit(step, done + ColumnSection(rules[..k], unique))
      invariant |next| == |done| + |ColumnSection(rules[..k], unique)|
    {
      ghost var before := done + ColumnSection(rules[..k], unique);
      var after, halted := RunChecks(step, ColumnChecks(rules[k], unique), before, next);
      if halted {
        SectionStopped(step, done, rules, unique, k, after);
        return after, true;
      }
      SectionAdvance(done, rules, unique, k);
      next, k := after, k + 1;
    }
    assert rules[..k] == rules;
    stopped := false;
  }

  /**
   * The `try` block of `main`: null checks, uniqueness checks, foreign
   * keys, the document format and the risk checks, each result named and
   * appended in turn; a database error ends the block and the results
   * gathered so far are kept.
   */
  method RunAudit(s: Session, cat: Catalog) returns (results: seq<CheckResult>)
    ensures results == AuditResults(s, Plan(cat))
  {
    var step := SessionSteps(s);
    var nullChecks := ColumnSection(cat.notNull, false);
    var uniqueChecks := ColumnSection(cat.unique, true);
    var fkChecks := ForeignKeySection(cat.foreignKeys);
    Regroup(nullChecks, uniqueChecks, fkChecks, [DocumentFormat], RiskChecks);
    var stopped;
    results, stopped := RunColumnSection(step, cat.notNull, false, [], []);
    if stopped {
      AuditFromStopped(step, [] + nullChecks, uniqueChecks + fkChecks + [DocumentFormat] + RiskChecks, 0);
      return;
    }
    assert [] + nullChecks == nullChecks;
    ghost var done := nullChecks;
    results, stopped := RunColumnSection(step, cat.unique, true, done, results);
    if stopped {
      AuditFromStopped(step, done + uniqueChecks, fkChecks + [DocumentFormat] + RiskChecks, 0);
      return;
    }
    done := done + uniqueChecks;
    results, stopped := RunChecks(step, fkChecks, done, results);
    if stopped {
      AuditFromStopped(step, done + fkChecks, [DocumentFormat] + RiskChecks, 0);
      return;
    }
    done := done + fkChecks;
    results, stopped := Attempt(step, DocumentFormat, done, results);
    if stopped {
      AuditFromStopped(step, done + [DocumentFormat], RiskChecks, 0);
      return;
    }
    done := done + [DocumentFormat];
    results, stopped := RunChecks(step, RiskChecks, done, results);
  }

  /** The plan's five sections, grouped at each point where the run can stop. */
  lemma Regroup(a: seq<Check>, b: seq<Check>, c: seq<Check>, d: seq<Check>, e: seq<Check>)
    ensures a + b + c + d + e == [] + a + (b + c + d + e)
    ensures a + b + c + d + e == a + b + (c + d + e)
    ensures a + b + c + d + e == a + b + c + (d + e)
  {
    assert [] + a == a;
  }

  // ---------------------------------------------------------------------
  // Distinct check names
  // ---------------------------------------------------------------------

  predicate NoUnderscore(t: string) {
    '_' !in t
  }

  ghost predicate DistinctNames(plan: seq<Check>) {
    forall i, j :: 0 <= i < j < |plan| ==> Name(plan[i]) != Name(plan[j])
  }

  function Tables(rules: seq<ColumnRule>): (ts: seq<string>)
    ensures |ts| == |rules|
    ensures forall i :: 0 <= i < |rules| ==> ts[i] == rules[i].table
  {
    seq(|rules|, i requires 0 <= i < |rules| => rules[i].table)
  }

  function ForeignKeyNames(fks: seq<ForeignKeyRule>): (ks: seq<(string, string)>)
    ensures |ks| == |fks|
    ensures forall i :: 0 <= i < |fks| ==> ks[i] == (fks[i].table, fks[i].fkColumn)
  {
    seq(|fks|, i requires 0 <= i < |fks| => (fks[i].table, fks[i].fkColumn))
  }

  /**
   * What makes the names distinct: the catalog's tables are distinct
   * dictionary keys, a table's columns are distinct, the foreign-key
   * entries name distinct (table, column) pairs, and no table name holds
   * an underscore, so a name splits back into its table and its column.
   */
  ghost predicate ColumnRulesWellFormed(rules: seq<ColumnRule>) {
    && Distinct(Tables(rules))
    && forall k :: 0 <= k < |rules| ==> Distinct(rules[k].columns) && NoUnderscore(rules[k].table)
  }

  ghost predicate CatalogWellFormed(cat: Catalog) {
    && ColumnRulesWellFormed(cat.notNull)
    && ColumnRulesWellFormed(cat.unique)
    && Distinct(ForeignKeyNames(cat.foreignKeys))
    && forall k :: 0 <= k < |cat.foreignKeys| ==> NoUnderscore(cat.foreignKeys[k].table)
  }

  lemma ShownCatalogWellFormed()
    ensures CatalogWellFormed(ShownCatalog)
  {
    ShownTablesDistinct();
    ShownColumnsDistinct();
    ShownTablesWithoutUnderscore();
  }

  lemma ShownTablesDistinct()
    ensures Distinct(Tables(NotNullChecks)) && Distinct(Tables(UniqueChecks)) && Distinct(ForeignKeyNames(ForeignKeyChecks))
  {
  }

  lemma ShownColumnsDistinct()
    ensures forall k :: 0 <= k < |NotNullChecks| ==> Distinct(NotNullChecks[k].columns)
    ensures forall k :: 0 <= k < |UniqueChecks| ==> Distinct(UniqueChecks[k].columns)
  {
  }

  lemma ShownTablesWithoutUnderscore()
    ensures forall k :: 0 <= k < |NotNullChecks| ==> NoUnderscore(NotNullChecks[k].table)
    ensures forall k :: 0 <= k < |UniqueChecks| ==> NoUnderscore(UniqueChecks[k].table)
    ensures forall k :: 0 <= k < |ForeignKeyChecks| ==> NoUnderscore(ForeignKeyChecks[k].table)
  {
    NullCatalogTablesWithoutUnderscore();
    assert forall k :: 0 <= k < |UniqueChecks| ==> UniqueChecks[k].table == NotNullChecks[k].table;
    assert ForeignKeyChecks[0].table == NotNullChecks[1].table;
    assert ForeignKeyChecks[1].table == NotNullChecks[2].table;
    assert ForeignKeyChecks[2].table == NotNullChecks[3].table;
    assert ForeignKeyChecks[3].table == NotNullChecks[8].table;
    assert ForeignKeyChecks[4].table == NotNullChecks[9].table;
  }

  lemma NullCatalogTablesWithoutUnderscore()
    ensures forall k :: 0 <= k < |NotNullChecks| ==> NoUnderscore(NotNullChecks[k].table)
  {
    NullCatalogTables();
    ShownTablesPlain();
  }

  /** The eleven tables of the schema. */
  const ShownTables: set<string> := {"customers", "customeridentitydocuments", "biometricdata", "accounts", "devices",
    "customerdevicelinks", "transactionlimits", "dailylimittrackers", "transactions", "authlogs", "risktags"}

  lemma NullCatalogTables()
    ensures forall k :: 0 <= k < |NotNullChecks| ==> NotNullChecks[k].table in ShownTables
  {
  }

  lemma ShownTablesPlain()
    ensures forall t :: t in ShownTables ==> NoUnderscore(t)
  {
    assert NoUnderscore("customers") && NoUnderscore("customeridentitydocuments") && NoUnderscore("biometricdata");
    PlainTablesRest();
  }

  lemma PlainTablesRest()
    ensures NoUnderscore("accounts") && NoUnderscore("devices") && NoUnderscore("customerdevicelinks") && NoUnderscore("transactionlimits")
    ensures NoUnderscore("dailylimittrackers") && NoUnderscore("transactions") && NoUnderscore("authlogs") && NoUnderscore("risktags")
  {
    assert NoUnderscore("accounts") && NoUnderscore("devices") && NoUnderscore("customerdevicelinks") && NoUnderscore("transactionlimits");
  }

  /** A name `prefix + table + "_" + column` gives back its table and column when tables hold no underscore. */
  lemma UnderscoreSplit(prefix: string, t1: string, c1: string, t2: string, c2: string)
    requires NoUnderscore(t1) && NoUnderscore(t2)
    requires prefix + t1 + "_" + c1 == prefix + t2 + "_" + c2
    ensures t1 == t2 && c1 == c2
  {
    var n1 := prefix + t1 + "_" + c1;
    var n2 := prefix + t2 + "_" + c2;
    assert n1[|prefix| + |t1|] == '_';
    assert n2[|prefix| + |t2|] == '_';
    assert t1 == n1[|prefix|..|prefix| + |t1|];
    assert t2 == n2[|prefix|..|prefix| + |t2|];
    assert c1 == n1[|prefix| + |t1| + 1..];
    assert c2 == n2[|prefix| + |t2| + 1..];
  }

  /** The first seven characters of a name tell its kind of check apart. */
  function Tag(c: Check): string {
    match c
    case NotNull(_, _) => "check_n"
    case Unique(_, _) => "check_u"
    case ForeignKey(_) => "check_f"
    case DocumentFormat => "check_d"
    case HighValueStrongAuth => "risk_hi"
    case UntrustedDevices => "risk_un"
    case DailyTotalStrongAuth => "risk_da"
  }

  lemma PrefixOfConcat(a: string, b: string, n: nat)
    requires n <= |a|
    ensures (a + b)[..n] == a[..n]
  {
  }

  lemma NameTag(c: Check)
    ensures |Name(c)| >= 7 && Name(c)[..7] == Tag(c)
  {
    match c
    case NotNull(t, col) =>
      PrefixOfConcat("check_null_", t + "_" + col, 7);
      assert Name(c) == "check_null_" + (t + "_" + col);
    case Unique(t, col) =>
      PrefixOfConcat("check_unique_", t + "_" + col, 7);
      assert Name(c) == "check_unique_" + (t + "_" + col);
    case ForeignKey(rule) =>
      PrefixOfConcat("check_fk_", rule.table + "_" + rule.fkColumn, 7);
      assert Name(c) == "check_fk_" + (rule.table + "_" + rule.fkColumn);
    case _ =>
  }

  lemma DifferentTagsDifferentNames(c1: Check, c2: Check)
    requires Tag(c1) != Tag(c2)
    ensures Name(c1) != Name(c2)
  {
    NameTag(c1);
    NameTag(c2);
  }

  lemma DistinctNamesAppend(a: seq<Check>, b: seq<Check>)
    requires DistinctNames(a) && DistinctNames(b)
    requires forall x, y :: x in a && y in b ==> Name(x) != Name(y)
    ensures DistinctNames(a + b)
  {
    forall i, j | 0 <= i < j < |a + b|
      ensures Name((a + b)[i]) != Name((a + b)[j])
    {
      if j < |a| {
        assert (a + b)[i] == a[i] && (a + b)[j] == a[j];
      } else if i >= |a| {
        assert (a + b)[i] == b[i - |a|] && (a + b)[j] == b[j - |a|];
      } else {
        assert (a + b)[i] in a && (a + b)[j] in b;
      }
    }
  }

  lemma ColumnChecksShape(rules: seq<ColumnRule>, unique: bool, k: nat)
    requires k < |rules|
    ensures forall c :: c in ColumnChecks(rules[k], unique) ==>
      (if unique then c.Unique? else c.NotNull?) && c == ColumnCheck(c.table, c.column, unique) && c.table == rules[k].table
  {
  }

  /** Every check of a column section is of the section's kind and names one of its tables. */
  lemma {:induction false} ColumnSectionShape(rules: seq<ColumnRule>, unique: bool)
    ensures forall c :: c in ColumnSection(rules, unique) ==>
      (if unique then c.Unique? else c.NotNull?) && c == ColumnCheck(c.table, c.column, unique) && c.table in Tables(rules)
  {
    if rules != [] {
      ColumnSectionShape(rules[1..], unique);
      assert Tables(rules[1..]) == Tables(rules)[1..];
      ColumnChecksShape(rules, unique, 0);
    }
  }

  lemma ColumnNameInjective(t1: string, c1: string, t2: string, c2: string, unique: bool)
    requires NoUnderscore(t1) && NoUnderscore(t2)
    requires Name(ColumnCheck(t1, c1, unique)) == Name(ColumnCheck(t2, c2, unique))
    ensures t1 == t2 && c1 == c2
  {
    if unique {
      UnderscoreSplit("check_unique_", t1, c1, t2, c2);
    } else {
      UnderscoreSplit("check_null_", t1, c1, t2, c2);
    }
  }

  lemma ColumnChecksDistinct(rule: ColumnRule, unique: bool)
    requires Distinct(rule.columns) && NoUnderscore(rule.table)
    ensures DistinctNames(ColumnChecks(rule, unique))
  {
    var cs := ColumnChecks(rule, unique);
    forall i, j | 0 <= i < j < |cs|
      ensures Name(cs[i]) != Name(cs[j])
    {
      if Name(cs[i]) == Name(cs[j]) {
        ColumnNameInjective(rule.table, rule.columns[i], rule.table, rule.columns[j], unique);
      }
    }
  }

  lemma {:induction false} ColumnSectionDistinct(rules: seq<ColumnRule>, unique: bool)
    requires ColumnRulesWellFormed(rules)
    ensures DistinctNames(ColumnSection(rules, unique))
  {
    if rules != [] {
      var rest := rules[1..];
      assert Tables(rest) == Tables(rules)[1..];
      assert ColumnRulesWellFormed(rest) by {
        forall k | 0 <= k < |rest|
          ensures Distinct(rest[k].columns) && NoUnderscore(rest[k].table)
        {
          assert rest[k] == rules[k + 1];
        }
      }
      ColumnSectionDistinct(rest, unique);
      ColumnChecksDistinct(rules[0], unique);
      ColumnChecksShape(rules, unique, 0);
      ColumnSectionShape(rest, unique);
      forall x, y | x in ColumnChecks(rules[0], unique) && y in ColumnSection(rest, unique)
        ensures Name(x) != Name(y)
      {
        var k :| 0 <= k < |rest| && Tables(rest)[k] == y.table;
        assert rest[k] == rules[k + 1];
        if Name(x) == Name(y) {
          ColumnNameInjective(x.table, x.column, y.table, y.column, unique);
        }
      }
      DistinctNamesAppend(ColumnChecks(rules[0], unique), ColumnSection(rest, unique));
    }
  }

  lemma ForeignKeySectionDistinct(fks: seq<ForeignKeyRule>)
    requires Distinct(ForeignKeyNames(fks))
    requires forall k :: 0 <= k < |fks| ==> NoUnderscore(fks[k].table)
    ensures DistinctNames(ForeignKeySection(fks))
  {
    var cs := ForeignKeySection(fks);
    forall i, j | 0 <= i < j < |cs|
      ensures Name(cs[i]) != Name(cs[j])
    {
      if Name(cs[i]) == Name(cs[j]) {
        UnderscoreSplit("check_fk_", fks[i].table, fks[i].fkColumn, fks[j].table, fks[j].fkColumn);
      }
    }
  }

  /** Checks of different sections carry different tags. */
  ghost predicate TaggedAll(cs: seq<Check>, tag: string) {
    forall c :: c in cs ==> Tag(c) == tag
  }

  /** Checks tagged from a set of tags, used for the tail of the plan. */
  ghost predicate TaggedAmong(cs: seq<Check>, tags: set<string>) {
    forall c :: c in cs ==> Tag(c) in tags
  }

  lemma SectionsApart(a: seq<Check>, b: seq<Check>, ta: string, tags: set<string>)
    requires TaggedAll(a, ta) && TaggedAmong(b, tags) && ta !in tags
    ensures forall x, y :: x in a && y in b ==> Name(x) != Name(y)
  {
    forall x, y | x in a && y in b
      ensures Name(x) != Name(y)
    {
      DifferentTagsDifferentNames(x, y);
    }
  }

  /** Prepending a section whose tag the rest does not use keeps the names distinct. */
  lemma JoinSection(a: seq<Check>, b: seq<Check>, ta: string, tags: set<string>)
    requires DistinctNames(a) && DistinctNames(b)
    requires TaggedAll(a, ta) && TaggedAmong(b, tags) && ta !in tags
    ensures DistinctNames(a + b) && TaggedAmong(a + b, {ta} + tags)
  {
    SectionsApart(a, b, ta, tags);
    DistinctNamesAppend(a, b);
  }

  /** No two checks of a well-formed catalog's plan get the same `check_name`. */
  lemma PlanNamesDistinct(cat: Catalog)
    requires CatalogWellFormed(cat)
    ensures DistinctNames(Plan(cat))
  {
    var nulls := ColumnSection(cat.notNull, false);
    var uniques := ColumnSection(cat.unique, true);
    var fks := ForeignKeySection(cat.foreignKeys);
    var tail := [DocumentFormat] + RiskChecks;
    ColumnSectionDistinct(cat.notNull, false);
    ColumnSectionDistinct(cat.unique, true);
    ForeignKeySectionDistinct(cat.foreignKeys);
    ColumnSectionShape(cat.notNull, false);
    ColumnSectionShape(cat.unique, true);
    TailDistinct();
    var tags := {"check_d", "risk_hi", "risk_un", "risk_da"};
    assert TaggedAll(fks, "check_f");
    JoinSection(fks, tail, "check_f", tags);
    JoinSection(uniques, fks + tail, "check_u", {"check_f"} + tags);
    JoinSection(nulls, uniques + (fks + tail), "check_n", {"check_u"} + ({"check_f"} + tags));
    assert Plan(cat) == nulls + (uniques + (fks + tail));
  }

  lemma TailDistinct()
    ensures DistinctNames([DocumentFormat] + RiskChecks)
    ensures TaggedAmong([DocumentFormat] + RiskChecks, {"check_d", "risk_hi", "risk_un", "risk_da"})
  {
  }

  lemma ShownPlanNamesDistinct()
    ensures DistinctNames(Plan(ShownCatalog))
  {
    ShownCatalogWellFormed();
    PlanNamesDistinct(ShownCatalog);
  }

  // ---------------------------------------------------------------------
  // Reporting
  // ---------------------------------------------------------------------

  /**
   * A result dictionary as the summary and the log read it, with
   * `dict.get`: any key may be missing, and the status is the stored text.
   */
  datatype Entry = Entry(
    status: Option<string>,
    checkName: Option<string>,
    message: Option<string>,
    failedCount: Option<nat>,
    failedRecords: Option<seq<string>>)

  function StatusText(st: Status): string {
    match st
    case Pass => "PASS"
    case Fail => "FAIL"
    case Warning => "WARNING"
    case Error => "ERROR"
  }

  /** The dictionary a check result is; no check fills `failed_records`. */
  function ToEntry(r: CheckResult): (e: Entry)
    ensures IsPass(e) <==> r.status == Pass
  {
    Entry(Some(StatusText(r.status)), r.checkName, Some(r.message), r.failedCount, None)
  }

  function Entries(results: seq<CheckResult>): (es: seq<Entry>)
    ensures |es| == |results|
    ensures forall i :: 0 <= i < |es| ==> es[i] == ToEntry(results[i])
  {
    seq(|results|, i requires 0 <= i < |results| => ToEntry(results[i]))
  }

  /** `r.get('status') == 'PASS'`: a missing status is not a pass. */
  predicate IsPass(e: Entry) {
    e.status == Some("PASS")
  }

  /**
   * `sorted(results, key=lambda x: x.get('status') != 'PASS')`. Python's
   * sort is stable and `False < True`, so this is the passes in their order
   * followed by the rest in theirs; the contract states it as a sort.
   */
  function SummaryOrder(es: seq<Entry>): (o: seq<Entry>)
    ensures |o| == |es|
    ensures multiset(o) == multiset(es)
    ensures forall i, j :: 0 <= i < j < |o| && !IsPass(o[i]) ==> !IsPass(o[j])
    ensures Filter(o, IsPass) == Filter(es, IsPass)
    ensures Filter(o, Not(IsPass)) == Filter(es, Not(IsPass))
  {
    var passed := Filter(es, IsPass);
    var failed := Filter(es, Not(IsPass));
    FilterPartition(es, IsPass);
    SummaryOrderStable(passed, failed);
    passed + failed
  }

  lemma SummaryOrderStable(passed: seq<Entry>, failed: seq<Entry>)
    requires forall i :: 0 <= i < |passed| ==> IsPass(passed[i])
    requires forall i :: 0 <= i < |failed| ==> Not(IsPass)(failed[i])
    ensures forall i, j :: 0 <= i < j < |passed + failed| && !IsPass((passed + failed)[i]) ==> !IsPass((passed + failed)[j])
    ensures Filter(passed + failed, IsPass) == passed
    ensures Filter(passed + failed, Not(IsPass)) == failed
  {
    FilterAppend(passed, failed, IsPass);
    FilterAppend(passed, failed, Not(IsPass));
    FilterAll(passed, IsPass);
    FilterNone(failed, IsPass);
    FilterNone(passed, Not(IsPass));
    FilterAll(failed, Not(IsPass));
  }

  /** The message column: a message of more than 28 characters is cut to 25 and marked with "...". */
  function Truncate(m: string): (t: string)
    ensures |t| <= 28
    ensures |m| <= 28 ==> t == m
    ensures |m| > 28 ==> |t| == 28 && t[..25] == m[..25] && t[25..] == "..."
  {
    if |m| > 28 then m[..25] + "..." else m
  }

  datatype SummaryRow = SummaryRow(status: string, checkName: string, message: string)

  function SummaryRowOf(e: Entry): SummaryRow {
    SummaryRow(e.status.GetOr("ERROR"), e.checkName.GetOr("Unknown Check"), Truncate(e.message.GetOr("An error occurred.")))
  }

  /**
   * The table `print_summary_table` prints, row by row in summary order,
   * and its two counters: a row counts as passed exactly when its status
   * is `PASS`, and a missing status reads as `ERROR`, a failure.
   */
  method PrintSummaryTable(es: seq<Entry>) returns (rows: seq<SummaryRow>, passedCount: nat, failedCount: nat)
    ensures |rows| == |es|
    ensures forall i :: 0 <= i < |rows| ==> rows[i] == SummaryRowOf(SummaryOrder(es)[i])
    ensures passedCount == Count(es, IsPass)
    ensures failedCount == Count(es, Not(IsPass))
    ensures passedCount + failedCount == |es|
  {
    var order := SummaryOrder(es);
    rows, passedCount, failedCount := PrintRows(order);
    SummaryOrderCounts(es);
    CountComplement(es, IsPass);
  }

  /** The loop of `print_summary_table` over the already ordered results. */
  method PrintRows(order: seq<Entry>) returns (rows: seq<SummaryRow>, passedCount: nat, failedCount: nat)
    ensures |rows| == |order|
    ensures forall i :: 0 <= i < |rows| ==> rows[i] == SummaryRowOf(order[i])
    ensures passedCount == Count(order, IsPass)
    ensures failedCount == Count(order, Not(IsPass))
  {
    rows := [];
    passedCount := 0;
    failedCount := 0;
    var i := 0;
    while i < |order|
      invariant 0 <= i <= |order|
      invariant RowsShown(rows, order, i)
      invariant passedCount == Count(order[..i], IsPass)
      invariant failedCount == Count(order[..i], Not(IsPass))
    {
      var result := order[i];
      var status := result.status.GetOr("ERROR");
      CountStep(order, i);
      assert status == "PASS" <==> IsPass(result);
      if status == "PASS" {
        passedCount := passedCount + 1;
      } else {
        failedCount := failedCount + 1;
      }
      RowsShownExtend(rows, order, i);
      rows := rows + [SummaryRowOf(result)];
      i := i + 1;
    }
    assert order[..i] == order;
  }

  /** The first `n` rows of the table, one per entry in order. */
  predicate RowsShown(rows: seq<SummaryRow>, order: seq<Entry>, n: nat) {
    n <= |order| && |rows| == n && forall k :: 0 <= k < n ==> rows[k] == SummaryRowOf(order[k])
  }

  lemma RowsShownExtend(rows: seq<SummaryRow>, order: seq<Entry>, n: nat)
    requires RowsShown(rows, order, n) && n < |order|
    ensures RowsShown(rows + [SummaryRowOf(order[n])], order, n + 1)
  {
  }

  /** One more row read: the counters move by the status of that row. */
  lemma CountStep(order: seq<Entry>, i: nat)
    requires i < |order|
    ensures Count(order[..i + 1], IsPass) == Count(order[..i], IsPass) + (if IsPass(order[i]) then 1 else 0)
    ensures Count(order[..i + 1], Not(IsPass)) == Count(order[..i], Not(IsPass)) + (if IsPass(order[i]) then 0 else 1)
  {
    assert order[..i + 1] == order[..i] + [order[i]];
    CountAppend(order[..i], [order[i]], IsPass);
    CountAppend(order[..i], [order[i]], Not(IsPass));
  }

  /** Reordering for the summary keeps the number of passes and of failures. */
  lemma SummaryOrderCounts(es: seq<Entry>)
    ensures Count(SummaryOrder(es), IsPass) == Count(es, IsPass)
    ensures Count(SummaryOrder(es), Not(IsPass)) == Count(es, Not(IsPass))
  {
    var o := SummaryOrder(es);
    CountIsFilterLength(o, IsPass);
    CountIsFilterLength(es, IsPass);
    CountIsFilterLength(o, Not(IsPass));
    CountIsFilterLength(es, Not(IsPass));
  }

  /** One block of the log's failed/warning section. */
  datatype FailureBlock = FailureBlock(
    checkName: string,
    status: string,
    message: string,
    violations: Option<nat>,
    examples: Option<seq<string>>)

  /** One block of the log's passed section; a missing key prints as `None`. */
  datatype PassBlock = PassBlock(checkName: string, status: string, message: string)

  datatype AuditLog = AuditLog(
    totalChecks: nat,
    passedCount: nat,
    failedCount: nat,
    failures: seq<FailureBlock>,
    passes: seq<PassBlock>)

  /** `failed_records[:5]`. */
  function Examples(records: seq<string>): (shown: seq<string>)
    ensures |shown| <= 5 && |shown| <= |records|
    ensures shown == records[..|shown|]
    ensures |shown| == if |records| < 5 then |records| else 5
  {
    if |records| <= 5 then records else records[..5]
  }

  function FailureBlockOf(e: Entry): FailureBlock {
    FailureBlock(
      e.checkName.GetOr("N/A"),
      e.status.GetOr("ERROR"),
      e.message.GetOr("An error occurred."),
      e.failedCount,
      if e.failedRecords.Some? then Some(Examples(e.failedRecords.value)) else None)
  }

  function PassBlockOf(e: Entry): PassBlock {
    PassBlock(e.checkName.GetOr("N/A"), e.status.GetOr("None"), e.message.GetOr("None"))
  }

  /**
   * The content of the log `write_log_file` writes, without its timestamps:
   * the counts, then a block per failed or warning result, then a block
   * per passed result, each in result order.
   */
  function AuditLogOf(es: seq<Entry>): (log: AuditLog)
    ensures log.totalChecks == |es|
    ensures log.passedCount == Count(es, IsPass) && log.failedCount == Count(es, Not(IsPass))
    ensures log.passedCount + log.failedCount == log.totalChecks
    ensures |log.passes| == |Filter(es, IsPass)| == log.passedCount
    ensures |log.failures| == |Filter(es, Not(IsPass))| == log.failedCount
    ensures forall i :: 0 <= i < |log.passes| ==> log.passes[i] == PassBlockOf(Filter(es, IsPass)[i])
    ensures forall i :: 0 <= i < |log.failures| ==> log.failures[i] == FailureBlockOf(Filter(es, Not(IsPass))[i])
  {
    var passedChecks := Filter(es, IsPass);
    var failedChecks := Filter(es, Not(IsPass));
    CountIsFilterLength(es, IsPass);
    CountIsFilterLength(es, Not(IsPass));
    CountComplement(es, IsPass);
    AuditLog(
      |es|,
      |passedChecks|,
      |failedChecks|,
      seq(|failedChecks|, i requires 0 <= i < |failedChecks| => FailureBlockOf(failedChecks[i])),
      seq(|passedChecks|, i requires 0 <= i < |passedChecks| => PassBlockOf(passedChecks[i])))
  }

  /** The end of `main`: the summary table and the log, or a notice when nothing ran. */
  datatype Report =
    | NoChecksExecuted(notice: string)
    | Reported(summary: seq<SummaryRow>, passedCount: nat, failedCount: nat, log: AuditLog)

  method ReportResults(results: seq<CheckResult>) returns (report: Report)
    ensures report.NoChecksExecuted? <==> results == []
    ensures report.NoChecksExecuted? ==> report.notice == "No checks were executed."
    ensures report.Reported? ==>
      && |report.summary| == |results|
      && (forall i :: 0 <= i < |report.summary| ==> report.summary[i] == SummaryRowOf(SummaryOrder(Entries(results))[i]))
      && report.passedCount == Count(Entries(results), IsPass)
      && report.failedCount == Count(Entries(results), Not(IsPass))
      && report.passedCount + report.failedCount == |results|
      && report.log == AuditLogOf(Entries(results))
  {
    if results == [] {
      return NoChecksExecuted("No checks were executed.");
    }
    var es := Entries(results);
    var rows, passed, failed := PrintSummaryTable(es);
    report := Reported(rows, passed, failed, AuditLogOf(es));
  }

  /** A whole audit: the run, then the report on whatever results it kept. */
  method RunAndReport(s: Session, cat: Catalog) returns (results: seq<CheckResult>, report: Report)
    ensures results == AuditResults(s, Plan(cat))
    ensures report.NoChecksExecuted? <==> results == []
    ensures report.Reported? ==>
      && |report.summary| == |results|
      && (forall i :: 0 <= i < |report.summary| ==> report.summary[i] == SummaryRowOf(SummaryOrder(Entries(results))[i]))
      && report.passedCount == Count(Entries(results), IsPass)
      && report.failedCount == Count(Entries(results), Not(IsPass))
      && report.passedCount + report.failedCount == |results|
      && report.log == AuditLogOf(Entries(results))
  {
    results := RunAudit(s, cat);
    report := ReportResults(results);
  }

  /** With no live connection, nothing runs and the notice is all that is shown. */
  lemma NoConnectionNoChecks(db: Database, cat: Catalog)
    ensures AuditResults(Session(db, 0), Plan(cat)) == []
  {
    PartialResultsSurvive(Session(db, 0), Plan(cat));
    assert |Plan(cat)| > 0 by {
      PlanLength(cat);
    }
  }

  /** The log's two sections together hold every result once: passes and failures partition the results. */
  lemma LogPartitionsResults(es: seq<Entry>)
    ensures multiset(Filter(es, IsPass)) + multiset(Filter(es, Not(IsPass))) == multiset(es)
    ensures |AuditLogOf(es).passes| + |AuditLogOf(es).failures| == |es|
  {
    FilterPartition(es, IsPass);
  }
}
