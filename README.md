# Banking data-quality audit, modelled in Dafny

This project models the core of a banking data-quality toolkit. There are three parts.

1. **The data-quality standards** (`quality.dfy`, module `DataQuality`). This is the rule catalog (NOT NULL columns, unique columns, foreign keys) and the seven check functions. Each check runs one counting query against PostgreSQL and turns the count into a PASS/FAIL (or WARNING) result dictionary. Each query is written the way its SQL reads, over in-memory tables (`sql.dfy`, module `Sql`), and the SQL details are modelled:
   - NULL and three-valued logic in `WHERE` and `ON`;
   - a `GROUP BY` that puts all NULLs in one group;
   - `LEFT JOIN ... IS NULL` anti-joins;
   - `COUNT(column)` skipping NULLs;
   - the error raised for an unknown table or column.

   Each check's contract states what the count *means* for the data ("the rows whose column is NULL", "the child rows whose key matches no parent", "the customer/day pairs over 20,000,000 VND with no strong authentication"). A lemma proves that the query computes exactly that.
2. **The audit run and its reports** (`audit.dfy`, module `MonitoringAudit`). This part covers:
   - the plan of checks `main` builds from the catalog, in its fixed order and with its `check_name`s;
   - the imperative run, which appends named results and stops at the first database error but keeps what it has;
   - the summary table (PASS rows first, messages cut to 28 characters, pass/fail counters);
   - the audit log (the passed/failed partition, at most five example records per failure).
3. **The deterministic rules of the data generator** (`generator.dfy`, module `GenerateData`). These are: honorific stripping, the OS-family lookup for device names, the regulation category, the per-transaction limit choice, the document-number and account-number shapes, the unique-account-number loop, the auth-log rule, and the daily-limit-tracker aggregation. Random draws are method parameters constrained to the generator's ranges. The proofs connect the generator to the checks: generated documents pass the format check, and generated auth logs never count as strong authentication.

`basics.dfy` (module `Basics`) holds counting and filtering over sequences. `strings.dfy` (module `Strings`) holds digits, decimal rendering, `startswith` and substring search.

## Model

| member | source | states |
|---|---|---|
| Sql.Resolve | src/data_quality_standards.py:38-39 | A query succeeds exactly when its table and every column it names exist; otherwise it raises; success reads that table's rows |
| Sql.Equal | src/data_quality_standards.py:67 | `a = b` is TRUE exactly when both sides are equal and non-NULL |
| Sql.AntiJoinCount | src/data_quality_standards.py:64-69 | `COUNT(l.key) ... LEFT JOIN ... WHERE r.key IS NULL` counts exactly the left rows with a non-NULL key that match no right row, whatever the number of matches |
| DataQuality.NullCountIsNullRows | src/data_quality_standards.py:38 | `COUNT(*) WHERE column IS NULL` is the number of row positions holding NULL (or lacking the column) |
| DataQuality.CheckNullValues | src/data_quality_standards.py:36-48 | Raises exactly on an unknown table/column; otherwise PASS with no `failed_count` iff the NULL count is 0, else FAIL with `failed_count` = that count |
| DataQuality.CheckUniqueness | src/data_quality_standards.py:50-61 | Raises exactly on an unknown table/column; verdict classifies the number of duplicate groups; PASS iff the column's values are pairwise distinct |
| DataQuality.NoDuplicateGroupsIffDistinct | src/data_quality_standards.py:51-54 | There is no group with more than one member exactly when no two rows share a value |
| DataQuality.NullsFormOneGroup | src/data_quality_standards.py:51 | Two NULLs in the column form one duplicate group (GROUP BY groups NULLs together) |
| DataQuality.GroupsNotRows | src/data_quality_standards.py:51-53 | Groups are counted, not rows: one value three times and another twice give a count of 2 |
| DataQuality.OrphanQueryCountsOrphans | src/data_quality_standards.py:64-69 | The anti-join query's count equals the number of child rows with a non-NULL key that no parent key equals |
| DataQuality.CheckForeignKeyIntegrity | src/data_quality_standards.py:63-79 | Raises exactly when a table or key column is unknown; otherwise classifies the orphan count |
| DataQuality.NullForeignKeyNeverCounted | src/data_quality_standards.py:68 | Inserting a child row with a NULL foreign key anywhere among the children never changes the orphan count |
| DataQuality.MoreParentsFewerOrphans | src/data_quality_standards.py:64-69 | Adding parent rows never increases the orphan count |
| DataQuality.InvalidDocumentQueryMeaning | src/data_quality_standards.py:82-88 | The format query counts exactly the CCCD rows whose number is not 12 digits and the Passport rows whose number is not an uppercase letter plus 7 digits (a NULL number is not counted) |
| DataQuality.CheckDocumentFormat | src/data_quality_standards.py:81-98 | Raises exactly on a missing table/column; otherwise classifies the badly formatted document count |
| DataQuality.UncheckedDocumentsNeverCounted | src/data_quality_standards.py:85-87 | Inserting, anywhere among the rows, a row of any type other than CCCD/Passport or one with a NULL number never changes the count |
| DataQuality.StrongAuthRowsMembers | src/data_quality_standards.py:111-115 | `strongly_authed_txns` holds exactly the logs that succeeded with sms_otp, soft_otp or biometric_faceid |
| DataQuality.UnmatchedHighValueIsUnauthenticated | src/data_quality_standards.py:106-119 | A transaction survives the anti-join iff it is completed, above 10,000,000, has an id, and no strong successful log names it |
| DataQuality.HighValueQueryMeaning | src/data_quality_standards.py:105-120 | The risk query's count is the number of high-value transactions lacking strong authentication |
| DataQuality.CheckHighValueTxnStrongAuth | src/data_quality_standards.py:102-130 | Raises exactly on a missing table/column; otherwise classifies the number of unauthenticated high-value transactions |
| DataQuality.OnlyHighValueFlagged | src/data_quality_standards.py:109 | Inserting, anywhere among the transactions, one that is not completed or not above 10,000,000 (exactly 10,000,000 included) never changes the count |
| DataQuality.StrongAuthClearsTransaction | src/data_quality_standards.py:111-119 | An added log clears a flagged transaction iff it is a strong success naming that transaction's id |
| DataQuality.WeakLogsClearNothing | src/data_quality_standards.py:103-114 | With no strong successful log, every completed high-value transaction with an id is flagged |
| DataQuality.LinkStatusesMeaning | src/data_quality_standards.py:137-138 | The join with device links yields nothing iff no link is an unverified match for the transaction's customer and device; what it yields is the transaction's status |
| DataQuality.AccountStatusesMeaning | src/data_quality_standards.py:136-138 | The same through the accounts join |
| DataQuality.UntrustedStatusesMeaning | src/data_quality_standards.py:133-141 | The full join yields nothing iff no transaction comes from an unverified device of its own customer |
| DataQuality.LinkStatusesCount | src/data_quality_standards.py:138-140 | For one transaction and account, the join yields one row per link of that device and owner marked unverified |
| DataQuality.AccountStatusesCount | src/data_quality_standards.py:136-140 | When exactly one account is the transaction's source account, the transaction adds one row per unverified link of its device and that account's owner |
| DataQuality.CheckUntrustedDeviceTransactions | src/data_quality_standards.py:132-154 | Never FAIL; PASS iff no match; otherwise WARNING with `failed_count` = number of matches and `successful_from_untrusted` = completed matches, which is at most that |
| DataQuality.StrongAuthDaysMembers | src/data_quality_standards.py:170-180 | A customer/day is in `daily_strong_auths` iff some completed transaction of that customer that day has a successful strong log |
| DataQuality.DailyTotalQueryMeaning | src/data_quality_standards.py:159-185 | The query counts exactly the known-customer pairs whose completed SUM exceeds 20,000,000 and that are not strongly authenticated that day |
| DataQuality.CheckDailyTotalOver20mAuth | src/data_quality_standards.py:156-195 | Raises exactly on a missing table/column; otherwise classifies the number of violating customer/day pairs |
| DataQuality.SameDaySpendIsOneViolation | src/data_quality_standards.py:160-168 | Many transactions of one customer on one day give at most one violation |
| DataQuality.SameDayOverLimitIsOneViolation | src/data_quality_standards.py:159-185 | When that customer's completed spending that day exceeds 20,000,000 and no strong authentication clears it, the violations are exactly that one pair and the query counts 1 |
| DataQuality.ViolationsAtMostDays | src/data_quality_standards.py:160-184 | The count never exceeds the number of distinct customer/day pairs with completed spending |
| DataQuality.UnknownDayNeverCleared | src/data_quality_standards.py:183 | A pair with a NULL date is never cleared by the LEFT JOIN, because the date comparison is unknown |
| MonitoringAudit.ColumnChecks | src/monitoring_audit.py:121-125 | The inner loop makes one check per column, in column order, for its table |
| MonitoringAudit.ForeignKeySection | src/monitoring_audit.py:136-140 | One check per foreign-key entry, in list order |
| MonitoringAudit.PlanLength | src/monitoring_audit.py:119-160 | The plan has one step per catalog column, per foreign key, plus four |
| MonitoringAudit.ShownPlanLength | src/monitoring_audit.py:119-160 | With the shipped catalog the plan has 47 + 6 + 5 + 1 + 3 = 62 steps |
| MonitoringAudit.ShownColumnCounts | src/data_quality_standards.py:5-25 | The shipped catalogs list 47 NOT NULL columns and 6 unique columns |
| MonitoringAudit.AuditFromAppend | src/monitoring_audit.py:119-160 | Running a longer plan whose first part raised nothing continues with the second part from the next step number |
| MonitoringAudit.AuditFromStopped | src/monitoring_audit.py:162-163 | Once a step has raised, nothing after it is run or kept |
| MonitoringAudit.AuditFromPrefix | src/monitoring_audit.py:112-162 | The results kept are the first ones in plan order, each the named result of its step; when fewer than the plan remain, the next step raised |
| MonitoringAudit.PartialResultsSurvive | src/monitoring_audit.py:112-172 | On a session: every kept result came from a live query that succeeded; a short run means the connection was lost or the query raised at exactly that step |
| MonitoringAudit.ResultsUntilConnectionLost | src/monitoring_audit.py:112-162 | On a schema every check can query, a connection lost before step k leaves exactly k results |
| MonitoringAudit.Attempt | src/monitoring_audit.py:123-125 | One step: on success the named result is appended; on an error the results are unchanged and the run has stopped |
| MonitoringAudit.RunChecks | src/monitoring_audit.py:157-160 | The loop over a list of checks computes the audit of the plan so far, or stops within it |
| MonitoringAudit.RunColumnSection | src/monitoring_audit.py:120-133 | The nested table/column loops compute the audit of the section, or stop within it |
| MonitoringAudit.RunAudit | src/monitoring_audit.py:112-167 | The `try` block's `all_results` equal the audit of the whole plan on the session |
| MonitoringAudit.UnderscoreSplit | src/monitoring_audit.py:122 | A table name without `_` can be read back from `prefix + table + "_" + column` |
| MonitoringAudit.NameTag | src/monitoring_audit.py:122-155 | The first seven characters of a name tell its kind of check |
| MonitoringAudit.ColumnNameInjective | src/monitoring_audit.py:122 | Two column checks of the same kind with the same name have the same table and column |
| MonitoringAudit.ColumnSectionDistinct | src/monitoring_audit.py:120-133 | A catalog with distinct tables, distinct columns and underscore-free table names gives distinct names |
| MonitoringAudit.ForeignKeySectionDistinct | src/monitoring_audit.py:136-137 | Distinct (table, fk column) pairs give distinct foreign-key names |
| MonitoringAudit.PlanNamesDistinct | src/monitoring_audit.py:119-160 | No two steps of a well-formed catalog's plan get the same `check_name` |
| MonitoringAudit.ShownCatalogWellFormed | src/data_quality_standards.py:5-33 | The shipped catalogs are well formed |
| MonitoringAudit.ShownPlanNamesDistinct | src/monitoring_audit.py:122-155 | The 62 `check_name`s of the shipped plan are pairwise distinct |
| MonitoringAudit.ToEntry | src/monitoring_audit.py:33 | A result reads as `'PASS'` exactly when its status is PASS |
| MonitoringAudit.Entries | src/monitoring_audit.py:170-172 | The result dictionaries, one per result, in order |
| MonitoringAudit.SummaryOrder | src/monitoring_audit.py:86 | The stable sort on `status != 'PASS'`: a permutation, PASS rows before all others, and the order within each group kept |
| MonitoringAudit.SummaryOrderCounts | src/monitoring_audit.py:86-94 | Sorting keeps the number of passes and of failures |
| MonitoringAudit.Truncate | src/monitoring_audit.py:96-97 | A message of at most 28 characters is unchanged; a longer one becomes its first 25 characters plus "..." |
| MonitoringAudit.PrintRows | src/monitoring_audit.py:86-100 | The loop prints one row per entry in order and counts the `'PASS'` statuses and all others, a missing status counting as failed |
| MonitoringAudit.PrintSummaryTable | src/monitoring_audit.py:74-103 | Rows are the sorted entries' rows; the two counters are the PASS and non-PASS counts and add up to the number of results |
| MonitoringAudit.Examples | src/monitoring_audit.py:58-60 | At most the first five failed records are shown, as a prefix |
| MonitoringAudit.AuditLogOf | src/monitoring_audit.py:27-70 | The log's totals, its passed and failed counts and blocks are those of the two partitions, in result order |
| MonitoringAudit.LogPartitionsResults | src/monitoring_audit.py:33-37 | The passed and failed lists together hold every result exactly once |
| MonitoringAudit.ReportResults | src/monitoring_audit.py:169-174 | No results gives only "No checks were executed."; otherwise the summary rows of the results in PASS-first order, the PASS and non-PASS counters, and the log of the results |
| MonitoringAudit.RunAndReport | src/monitoring_audit.py:107-174 | `main`: the results are the audit of the plan, and whatever stopped the run they are printed as summary rows in PASS-first order with their two counters, and logged |
| MonitoringAudit.NoConnectionNoChecks | src/monitoring_audit.py:112-113 | When the connection cannot be opened, no checks are reported |
| GenerateData.StripPrefixes | src/generate_data.py:46-48 | Stripping yields a suffix of the name |
| GenerateData.StripHonorifics | src/generate_data.py:46-48 | The loop over the honorifics as written computes the prefix stripping, each honorific tried once in list order |
| GenerateData.NoHonorificUnchanged | src/generate_data.py:46-48 | A name starting with none of the prefixes is unchanged |
| GenerateData.StripCutsAtSpace | src/generate_data.py:46-48 | Prefixes that are words followed by a space only ever cut just after a space |
| GenerateData.HonorificsCutAtSpace | src/generate_data.py:46-48 | With the corrected honorifics, stripping keeps the name or cuts right after a space, so no part of a word is cut off |
| GenerateData.SurnameTruncatedAsWritten | src/generate_data.py:46 | With the list as written, "Bành Văn An" becomes "nh Văn An" |
| GenerateData.SurnameKeptWhenCorrected | src/generate_data.py:46 | With the corrected list, "Bành Văn An" is kept whole |
| GenerateData.GeneratedDevicesAreNamed | src/generate_data.py:94-102 | Every OS the generator draws for a device type has a device-name list, so "Generic Device" is never used |
| GenerateData.MobileFamilies | src/generate_data.py:95-101 | Mobile systems are classified iOS or Android |
| GenerateData.DesktopFamilies | src/generate_data.py:96-101 | Desktop systems are classified Windows or macOS |
| GenerateData.TabletFamilies | src/generate_data.py:97-101 | Tablet systems are classified iPadOS or Android; "iPadOS 17.5" does not contain "iOS" |
| GenerateData.DeviceName | src/generate_data.py:102 | The device name is drawn from the list of the type and OS family |
| GenerateData.RegulationCategory | src/generate_data.py:276 | The category is always B or C |
| GenerateData.CategoryCIsHighValue | src/generate_data.py:276 | A completed transaction is category C exactly when the high-value check would select it (amount above 10,000,000) |
| GenerateData.PerTransactionChoices | src/generate_data.py:194-199 | The choices are limit options; when some option is within the daily total, the choices are exactly the options within it; otherwise only the smallest option |
| GenerateData.PerTransactionWithinDaily | src/generate_data.py:188-199 | With the shipped daily options, the chosen per-transaction limit never exceeds the daily total |
| GenerateData.GenerateTransactionLimits | src/generate_data.py:191-202 | Each customer gets exactly one DAILY_TOTAL record with the drawn daily limit and then one PER_TRANSACTION record with the drawn per-transaction limit, which is within it, in customer order |
| GenerateData.AuthMethod | src/generate_data.py:307 | The method is "biometric" exactly when the category is C or D, and otherwise the drawn choice of "pin" or "otp" |
| GenerateData.AuthResult | src/generate_data.py:308 | The result is "success" exactly when the transaction is completed |
| GenerateData.AuthLogFor | src/generate_data.py:306-313 | The log names its transaction and succeeds exactly when the transaction completed |
| GenerateData.GeneratedMethodsAreWeak | src/generate_data.py:307 | No generated method is one of the strong methods |
| GenerateData.GeneratedLogsFlagEveryHighValue | src/generate_data.py:306-313 | Against generated logs, every completed high-value transaction with an id is flagged |
| GenerateData.CccdNumber | src/generate_data.py:148 | A draw from [10^11, 10^12 - 1] renders as exactly 12 digits |
| GenerateData.PassportNumber | src/generate_data.py:151 | B, C or K followed by a draw from [10^6, 10^7 - 1] is an uppercase letter plus 7 digits |
| GenerateData.DocumentFrom | src/generate_data.py:144-151 | The document's type is the drawn type and its number has that type's shape |
| GenerateData.ActivePositionsExact | src/generate_data.py:142-143 | The positions listed are exactly the active customers' positions, in increasing order, as many as there are active customers |
| GenerateData.GenerateIdentityDocuments | src/generate_data.py:142-160 | Document j is built from the j-th active customer's id and that customer's draw, so there is exactly one per active customer, in customer order, each well formed |
| GenerateData.GeneratedDocumentsPassFormatCheck | src/generate_data.py:147-151 | Generated documents make the format query count 0 |
| GenerateData.AccountNumber | src/generate_data.py:220 | "102" plus a draw from [10^9, 10^10 - 1] is 13 digits starting with "102" |
| GenerateData.AccountNumberRegistry.Clear | src/generate_data.py:212 | The used set is emptied |
| GenerateData.AccountNumberRegistry.DrawFresh | src/generate_data.py:219-223 | Draws until a number not yet used turns up, adds exactly that number, and every number skipped was already used |
| GenerateData.IssueNext | src/generate_data.py:218-223 | One fresh number drawn and its account appended after the earlier ones, or, when every remaining draw gives a number already in use, nothing appended and the draws used up; the appended account's number is the last draw read |
| GenerateData.IssueAccounts | src/generate_data.py:217-223 | Up to `count` accounts for one active customer are appended after the earlier ones, each with a fresh "102"-plus-ten-digits number; every draw read gave a number now in use, and fewer than `count` are issued only when the draws are used up |
| GenerateData.GenerateAccounts | src/generate_data.py:208-223 | Accounts belong to active customers, have numbers of "102" plus ten digits, are pairwise distinct, and the used set is exactly their numbers; unless the draws run out, the owners are each active customer's id as many times as drawn, in customer order, and no inactive customer; `ranOut` holds only when every draw gave a number now in use, and then the owners are a proper prefix of that |
| GenerateData.TypeGroup | src/generate_data.py:331-335 | A transaction type maps to one of the three limit groups |
| GenerateData.GenerateDailyLimitTrackers | src/generate_data.py:325-359 | One record per distinct (customer, date, group) key, each with the key's total and running total; each row's group is `TypeGroup` of its transaction type, so every record's group is one of the three; the records come in the order their keys are first met among the transactions (the dictionary's insertion order) |
| GenerateData.AggregateTrackers | src/generate_data.py:343-353 | The dictionary loop leaves, for every key met, the key's total and running total, with the keys listed once each in the order they are first met (`FirstSeenOrder`: the first indexes strictly increase) |
| GenerateData.AggregateStep | src/generate_data.py:344-353 | One pass adds a new key with zero totals at the end of the key order, adds the amount to both totals, clears the running total for C/D, and keeps the loop's state description for one more row |
| GenerateData.FirstIndex | src/generate_data.py:346-347 | The position where a key is first met is within the rows and, when below their length, holds that key |
| GenerateData.NothingBeforeFirstIndex | src/generate_data.py:346-347 | No row before that position has the key |
| GenerateData.FirstIndexInPrefix | src/generate_data.py:346-347 | A key first met before row `i` is among the keys of the first `i` rows |
| GenerateData.FirstIndexOfNewKey | src/generate_data.py:346-347 | A row whose key is not among the earlier rows' keys is where that key is first met |
| GenerateData.FirstSeenExtend | src/generate_data.py:346-347 | Appending a key first met at row `i` keeps the keys in first-seen order |
| GenerateData.FirstSeenStep | src/generate_data.py:344-347 | One pass keeps the key order first-seen, whether the key was new or already listed |
| GenerateData.FirstSeenDistinct | src/generate_data.py:343-347 | Keys in first-seen order are listed once each |
| GenerateData.KeysHaveGroups | src/generate_data.py:331-335 | Every tracker key's group is one of NHOM_I.1, NHOM_I.2 and NHOM_I.3 |
| GenerateData.TrackerStep | src/generate_data.py:344-353 | Reading one row adds its key and moves only that key's totals |
| GenerateData.RunningAtMostTotal | src/generate_data.py:349-353 | With non-negative amounts, the running total is between 0 and the total |
| GenerateData.RunningWithoutReset | src/generate_data.py:349-353 | Without a C/D row for the key, the running total is the total |
| GenerateData.RunningSinceLastReset | src/generate_data.py:349-353 | After the key's last C/D row, the running total is the sum of the key's later amounts |

## Left out

- Database access is not modelled: psycopg2 connections, cursors, `commit`, `close`, `TRUNCATE`, `executemany` and `INSERT`. Each query is a function over in-memory tables. A failed `psycopg2.connect` is a session with no live queries.
- Console output and file output are left out. This covers `print`, column padding, header and footer lines, the log file path, `os.makedirs` and timestamps. The reports are the values that would be printed or written.
- Faker, `random`, `uuid` and `hashlib` are not modelled. Every random draw is a parameter constrained to its range. Hash and UUID contents are not modelled.
- Amounts are whole VND (`int`). The generator's `random.uniform` floats are not modelled. A transaction amount is taken as already known, so the draws that produce it (`generate_transactions`) are not modelled.
- `created_at::date` is an abstract day number, and time zones are not modelled.
- Regular expressions are modelled by their meaning only: `\d` is an ASCII digit and `[A-Z]` an ASCII uppercase letter.
- Identifiers are folded to lower case, as PostgreSQL folds unquoted names.
- Sql.Equal: comparing values of two different types gives FALSE, where PostgreSQL rejects the query with a type error. The catalog's queries compare columns of one type, so the case does not arise for them.
- `ORDER BY` in the tracker query is not modelled. The model reads the rows in the order given, and the trackers are proved for any order.
- `src/generate_data.py` is otherwise left out: customers, devices and device links, biometric data, transactions, risk tags, and its `main`. Among the rules that do depend on chance, only the deterministic ones named above are modelled.
- `dags_or_jobs/banking_dq_dag.py` is scheduling configuration and is not part of this model.
- GenerateData.AccountNumberRegistry.DrawFresh: the source's `while True` loop can draw forever. The model reads a finite stream of draws and reports `None` when the stream runs out. GenerateAccounts then stops issuing accounts and reports `ranOut`. A run that the source would finish is not told apart from one that needed more draws than the stream holds.
- GenerateData.OsKey: the first-match chain has no contract of its own. The lemmas about it cover the systems the generator draws.
- Per-check error isolation and an ERROR status produced by the engine are not modelled. The code produces neither: a database error ends the whole run.

## Findings

| source | as written | input that shows it | evidently intended | confidence | as-written member | corrected member |
|---|---|---|---|---|---|---|
| src/generate_data.py:46-48 | The prefixes `'Cô'`, `'Bà'` and `'Ông'` have no trailing space, unlike `'Bác '`, `'Anh '` and `'Chị '`. A name whose first word merely begins with those letters loses part of that word, and a real honorific leaves a leading space. | `"Bành Văn An"` becomes `"nh Văn An"` | Strip an honorific only as a whole word followed by its space | not executed | GenerateData.SurnameTruncatedAsWritten | GenerateData.HonorificsCutAtSpace |

`StripHonorifics` models the loop as written. The corrected list `HonorificPrefixes` is used for the corrected half: `HonorificsCutAtSpace` and `SurnameKeptWhenCorrected`.
