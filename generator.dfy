/**
 * The deterministic rules of the synthetic-data generator: how a customer
 * name loses its honorific, which device names an operating system picks
 * from, the regulation category of an amount, the per-transaction limit a
 * daily limit allows, the shape of identity-document and account numbers,
 * the authentication log written for a transaction, and the daily limit
 * trackers aggregated from completed transactions.
 *
 * Random draws are parameters, constrained to the ranges the generator
 * draws them from; amounts are whole VND.
 */
module GenerateData {
  import opened Basics
  import opened Strings
  import opened Sql
  import opened DataQuality

  // ---------------------------------------------------------------------
  // Customer names
  // ---------------------------------------------------------------------

  /** The honorifics the generator strips, in the order it tries them, as written. */
  const HonorificPrefixesAsWritten: seq<string> := ["Bác ", "Anh ", "Chị ", "Cô", "Bà", "Ông"]

  /** The same honorifics as whole words: each followed by the space that ends it. */
  const HonorificPrefixes: seq<string> := ["Bác ", "Anh ", "Chị ", "Cô ", "Bà ", "Ông "]

  /**
   * Tries each prefix once, in order, removing it when the name (as it is
   * by then) starts with it.
   */
  function StripPrefixes(name: string, prefixes: seq<string>): (r: string)
    ensures |r| <= |name| && r == name[|name| - |r|..]
  {
    if prefixes == [] then name
    else
      var next := if StartsWith(name, prefixes[0]) then name[|prefixes[0]|..] else name;
      var r := StripPrefixes(next, prefixes[1..]);
      assert r == name[|name| - |r|..] by {
        assert next == name[|name| - |next|..];
      }
      r
  }

  /** The prefix loop of `generate_customers`, over the honorifics as written. */
  method StripHonorifics(name: string) returns (fullName: string)
    ensures fullName == StripPrefixes(name, HonorificPrefixesAsWritten)
  {
    fullName := name;
    for i := 0 to |HonorificPrefixesAsWritten|
      invariant StripPrefixes(fullName, HonorificPrefixesAsWritten[i..]) == StripPrefixes(name, HonorificPrefixesAsWritten)
    {
      var prefix := HonorificPrefixesAsWritten[i];
      assert HonorificPrefixesAsWritten[i..][1..] == HonorificPrefixesAsWritten[i + 1..];
      if StartsWith(fullName, prefix) {
        fullName := fullName[|prefix|..];
      }
    }
  }

  /** A name that starts with none of the prefixes is left as it is. */
  lemma {:induction false} NoHonorificUnchanged(name: string, prefixes: seq<string>)
    requires forall i :: 0 <= i < |prefixes| ==> !StartsWith(name, prefixes[i])
    ensures StripPrefixes(name, prefixes) == name
  {
    if prefixes != [] {
      NoHonorificUnchanged(name, prefixes[1..]);
    }
  }

  /** A prefix that is a whole word, ended by its space. */
  predicate IsWord(prefix: string) {
    |prefix| > 0 && prefix[|prefix| - 1] == ' '
  }

  /**
   * When every prefix ends with a space, stripping cuts the name only just
   * after a space: it removes leading words and never part of one.
   */
  lemma {:induction false} StripCutsAtSpace(name: string, prefixes: seq<string>)
    requires forall i :: 0 <= i < |prefixes| ==> IsWord(prefixes[i])
    ensures StripPrefixes(name, prefixes) == name || name[|name| - |StripPrefixes(name, prefixes)| - 1] == ' '
  {
    if prefixes != [] {
      var next := if StartsWith(name, prefixes[0]) then name[|prefixes[0]|..] else name;
      StripCutsAtSpace(next, prefixes[1..]);
      var r := StripPrefixes(next, prefixes[1..]);
      if next != name && r == next {
        assert name[|prefixes[0]| - 1] == prefixes[0][|prefixes[0]| - 1];
      } else if next != name {
        assert name[|name| - |r| - 1] == next[|next| - |r| - 1];
      }
    }
  }

  /** The corrected honorifics only remove whole leading words. */
  lemma HonorificsCutAtSpace(name: string)
    ensures StripPrefixes(name, HonorificPrefixes) == name || name[|name| - |StripPrefixes(name, HonorificPrefixes)| - 1] == ' '
  {
    StripCutsAtSpace(name, HonorificPrefixes);
  }

  /**
   * As written, "Bà" has no space after it, so a surname that merely begins
   * with those letters loses them: "Bành Văn An" becomes "nh Văn An", cut
   * in the middle of its first word.
   */
  lemma SurnameTruncatedAsWritten()
    ensures StripPrefixes("Bành Văn An", HonorificPrefixesAsWritten) == "nh Văn An"
  {
    NoSpacedHonorificApplies();
    BaCutsSurname();
  }

  /** None of "Bác ", "Anh ", "Chị ", "Cô" begins "Bành Văn An". */
  lemma NoSpacedHonorificApplies()
    ensures StripPrefixes("Bành Văn An", HonorificPrefixesAsWritten) == StripPrefixes("Bành Văn An", HonorificPrefixesAsWritten[4..])
  {
    var name := "Bành Văn An";
    var p := HonorificPrefixesAsWritten;
    DiffersAt(name, p[0], 2);
    DiffersAt(name, p[1], 0);
    DiffersAt(name, p[2], 0);
    DiffersAt(name, p[3], 0);
    StripPrefixesSplit(name, p, 4);
  }

  /** "Bà" does, and takes the first two letters of the surname with it. */
  lemma BaCutsSurname()
    ensures StripPrefixes("Bành Văn An", HonorificPrefixesAsWritten[4..]) == "nh Văn An"
  {
    var name := "Bành Văn An";
    var p := HonorificPrefixesAsWritten;
    assert StartsWith(name, p[4]);
    var cut := name[2..];
    assert cut == "nh Văn An";
    assert StripPrefixes(name, p[4..]) == StripPrefixes(cut, p[5..]);
    DiffersAt(cut, p[5], 0);
    NoHonorificUnchanged(cut, p[5..]);
  }

  /** With the corrected honorifics, the same name keeps its surname. */
  lemma SurnameKeptWhenCorrected()
    ensures StripPrefixes("Bành Văn An", HonorificPrefixes) == "Bành Văn An"
  {
    var name := "Bành Văn An";
    var p := HonorificPrefixes;
    DiffersAt(name, p[0], 2);
    DiffersAt(name, p[1], 0);
    DiffersAt(name, p[2], 0);
    DiffersAt(name, p[3], 0);
    DiffersAt(name, p[4], 2);
    DiffersAt(name, p[5], 0);
    NoHonorificUnchanged(name, p);
  }

  /** Trying the first `k` prefixes leaves the name unchanged when none applies, so the rest start from it. */
  lemma {:induction false} StripPrefixesSplit(name: string, prefixes: seq<string>, k: nat)
    requires k <= |prefixes|
    requires forall i :: 0 <= i < k ==> !StartsWith(name, prefixes[i])
    ensures StripPrefixes(name, prefixes) == StripPrefixes(name, prefixes[k..])
  {
    if k > 0 {
      assert prefixes[1..][k - 1..] == prefixes[k..];
      StripPrefixesSplit(name, prefixes[1..], k - 1);
    }
  }

  /** A string does not start with a prefix it differs from at some position. */
  lemma DiffersAt(s: string, prefix: string, k: nat)
    requires k < |s| && k < |prefix| && s[k] != prefix[k]
    ensures !StartsWith(s, prefix)
  {
    if |prefix| <= |s| {
      assert s[..|prefix|][k] == s[k];
    }
  }

  // ---------------------------------------------------------------------
  // Devices
  // ---------------------------------------------------------------------

  datatype DeviceType = Mobile | Desktop | Tablet

  /** The operating systems `os_map` offers for a device type. */
  function OsOptions(deviceType: DeviceType): (options: seq<string>)
    ensures |options| >= 1
  {
    match deviceType
    case Mobile => ["iOS 17.5", "Android 14", "iOS 16.0"]
    case Desktop => ["Windows 11", "macOS Sonoma", "Windows 10"]
    case Tablet => ["iPadOS 17.5", "Android 14"]
  }

  /** The operating-system families `os_key` distinguishes. */
  datatype OsFamily = IOS | IPadOS | MacOS | Windows | Android

  /**
   * The family of an operating-system string: the first of iOS, iPadOS,
   * macOS and Windows it contains, and Android when it contains none.
   */
  function OsKey(deviceOs: string): OsFamily {
    if Contains(deviceOs, "iOS") then IOS
    else if Contains(deviceOs, "iPadOS") then IPadOS
    else if Contains(deviceOs, "macOS") then MacOS
    else if Contains(deviceOs, "Windows") then Windows
    else Android
  }

  /** `device_name_map.get((device_type, os_key), ["Generic Device"])`. */
  function DeviceNames(deviceType: DeviceType, osKey: OsFamily): (names: seq<string>)
    ensures |names| >= 1
  {
    match (deviceType, osKey)
    case (Mobile, IOS) => ["iPhone 15 Pro Max", "iPhone 14", "iPhone 13 Pro"]
    case (Mobile, Android) => ["Samsung Galaxy S24 Ultra", "Oppo Reno11", "Xiaomi 14"]
    case (Desktop, Windows) => ["Dell XPS Tower", "HP Spectre", "Lenovo ThinkCentre"]
    case (Desktop, MacOS) => ["MacBook Pro 16-inch", "iMac 24-inch", "Mac mini"]
    case (Tablet, IPadOS) => ["iPad Pro 12.9-inch", "iPad Air"]
    case (Tablet, Android) => ["Samsung Galaxy Tab S9", "Xiaomi Pad 6"]
    case _ => ["Generic Device"]
  }

  /** The device name drawn for a device, `pick` being the position `random.choice` draws. */
  function DeviceName(deviceType: DeviceType, deviceOs: string, pick: nat): (name: string)
    requires pick < |DeviceNames(deviceType, OsKey(deviceOs))|
    ensures name in DeviceNames(deviceType, OsKey(deviceOs))
  {
    DeviceNames(deviceType, OsKey(deviceOs))[pick]
  }

  /** A string starting with the pattern contains it. */
  lemma StartsContains(s: string, sub: string)
    requires StartsWith(s, sub)
    ensures Contains(s, sub)
  {
  }

  lemma IosFamily(s: string)
    requires StartsWith(s, "iOS")
    ensures OsKey(s) == IOS
  {
    StartsContains(s, "iOS");
  }

  /** Without a capital O a string names none of the Apple systems. */
  lemma NoAppleSystem(s: string)
    requires 'O' !in s
    ensures !Contains(s, "iOS") && !Contains(s, "iPadOS") && !Contains(s, "macOS")
  {
    MissingCharNotContained(s, "iOS", 'O');
    MissingCharNotContained(s, "iPadOS", 'O');
    MissingCharNotContained(s, "macOS", 'O');
  }

  lemma AndroidFamily(s: string)
    requires 'O' !in s && 'W' !in s
    ensures OsKey(s) == Android
  {
    NoAppleSystem(s);
    MissingCharNotContained(s, "Windows", 'W');
  }

  lemma WindowsFamily(s: string)
    requires 'O' !in s && StartsWith(s, "Windows")
    ensures OsKey(s) == Windows
  {
    NoAppleSystem(s);
    StartsContains(s, "Windows");
  }

  lemma MacFamily(s: string)
    requires 'i' !in s && StartsWith(s, "macOS")
    ensures OsKey(s) == MacOS
  {
    MissingCharNotContained(s, "iOS", 'i');
    MissingCharNotContained(s, "iPadOS", 'i');
    StartsContains(s, "macOS");
  }

  lemma IPadFamily(s: string)
    requires !Contains(s, "iOS") && StartsWith(s, "iPadOS")
    ensures OsKey(s) == IPadOS
  {
    StartsContains(s, "iPadOS");
  }

  /**
   * A string that begins "iPadOS" and has no further small i holds the
   * letters of "iOS" but never together.
   */
  lemma IPadOsIsNotIos(s: string)
    requires StartsWith(s, "iPadOS") && 'i' !in s[5..]
    ensures !Contains(s, "iOS")
  {
    var s1 := s[1..];
    var s2 := s1[1..];
    var s3 := s2[1..];
    var s4 := s3[1..];
    var s5 := s4[1..];
    assert s[..6][1] == 'P' && s[..6][2] == 'a' && s[..6][3] == 'd' && s[..6][4] == 'O';
    assert s5 == s[5..];
    MissingCharNotContained(s5, "iOS", 'i');
    DiffersAt(s4, "iOS", 0);
    assert !Contains(s4, "iOS");
    DiffersAt(s3, "iOS", 0);
    assert !Contains(s3, "iOS");
    DiffersAt(s2, "iOS", 0);
    assert !Contains(s2, "iOS");
    DiffersAt(s1, "iOS", 0);
    assert !Contains(s1, "iOS");
    DiffersAt(s, "iOS", 1);
  }

  /** Every operating system the generator offers for a device type has names of its own: the fallback is never drawn. */
  lemma GeneratedDevicesAreNamed(deviceType: DeviceType, deviceOs: string)
    requires deviceOs in OsOptions(deviceType)
    ensures DeviceNames(deviceType, OsKey(deviceOs)) != ["Generic Device"]
  {
    match deviceType
    case Mobile => MobileFamilies(deviceOs);
    case Desktop => DesktopFamilies(deviceOs);
    case Tablet => TabletFamilies(deviceOs);
  }

  lemma MobileFamilies(deviceOs: string)
    requires deviceOs in OsOptions(Mobile)
    ensures OsKey(deviceOs) == IOS || OsKey(deviceOs) == Android
  {
    if deviceOs == "Android 14" {
      AndroidFamily(deviceOs);
    } else {
      IosFamily(deviceOs);
    }
  }

  lemma DesktopFamilies(deviceOs: string)
    requires deviceOs in OsOptions(Desktop)
    ensures OsKey(deviceOs) == Windows || OsKey(deviceOs) == MacOS
  {
    if deviceOs == "macOS Sonoma" {
      MacFamily(deviceOs);
    } else {
      WindowsFamily(deviceOs);
    }
  }

  lemma TabletFamilies(deviceOs: string)
    requires deviceOs in OsOptions(Tablet)
    ensures OsKey(deviceOs) == IPadOS || OsKey(deviceOs) == Android
  {
    if deviceOs == "Android 14" {
      AndroidFamily(deviceOs);
    } else {
      assert deviceOs[5..] == "S 17.5";
      IPadOsIsNotIos(deviceOs);
      IPadFamily(deviceOs);
    }
  }

  // ---------------------------------------------------------------------
  // Transactions, limits and authentication
  // ---------------------------------------------------------------------

  /** Category B up to 10,000,000 VND, category C above. */
  function RegulationCategory(amount: int): (c: string)
    ensures c == "B" || c == "C"
  {
    if amount <= 10000000 then "B" else "C"
  }

  /**
   * Category C marks exactly the amounts the high-value check treats as
   * high: a completed transaction is high-value iff its category is C.
   */
  lemma CategoryCIsHighValue(t: Row, amount: int)
    requires Cell(t, "amount") == Int(amount) && Cell(t, "status") == Str("completed")
    ensures IsHighValue(t) <==> RegulationCategory(amount) == "C"
  {
  }

  const DailyLimitOptions: seq<int> := [500000000, 1000000000, 2000000000, 5000000000]
  const PerTransactionOptions: seq<int> := [100000000, 500000000, 1000000000]

  /** The smallest per-transaction option, `min(per_transaction_options)`. */
  const SmallestPerTransaction: int := 100000000

  function AllowedBy(dailyTotal: int): int -> bool {
    p => p <= dailyTotal
  }

  /** The per-transaction limits a customer with this daily limit may be given. */
  function PerTransactionChoices(dailyTotal: int): (choices: seq<int>)
    ensures |choices| >= 1
    ensures forall i :: 0 <= i < |choices| ==> choices[i] in PerTransactionOptions
    ensures Filter(PerTransactionOptions, AllowedBy(dailyTotal)) != [] ==>
      forall x :: x in choices <==> x in PerTransactionOptions && x <= dailyTotal
    ensures Filter(PerTransactionOptions, AllowedBy(dailyTotal)) == [] ==> choices == [SmallestPerTransaction]
  {
    var valid := Filter(PerTransactionOptions, AllowedBy(dailyTotal));
    if valid == [] then [SmallestPerTransaction]
    else
      forall x
        ensures x in valid <==> x in PerTransactionOptions && x <= dailyTotal
      {
        FilterMembers(PerTransactionOptions, AllowedBy(dailyTotal), x);
      }
      valid
  }

  /** Every daily limit offered admits at least one option, so the per-transaction limit never exceeds the daily one. */
  lemma PerTransactionWithinDaily(dailyTotal: int, perTransaction: int)
    requires dailyTotal in DailyLimitOptions && perTransaction in PerTransactionChoices(dailyTotal)
    ensures perTransaction in PerTransactionOptions && perTransaction <= dailyTotal
  {
    FilterMembers(PerTransactionOptions, AllowedBy(dailyTotal), SmallestPerTransaction);
  }

  datatype LimitType = DailyTotal | PerTransaction

  datatype LimitRecord = LimitRecord(customerId: int, limitType: LimitType, amount: int, currency: string)

  /**
   * The two records of one customer: the daily limit drawn, then the
   * per-transaction limit drawn, one of the options that does not exceed it.
   */
  predicate LimitsOf(daily: LimitRecord, perTransaction: LimitRecord, customerId: int, dailyTotal: int, perTransactionTotal: int) {
    && daily == LimitRecord(customerId, DailyTotal, dailyTotal, "VND")
    && perTransaction == LimitRecord(customerId, PerTransaction, perTransactionTotal, "VND")
    && perTransactionTotal in PerTransactionOptions
    && perTransactionTotal <= dailyTotal
  }

  /**
   * `generate_transaction_limits`: for each customer in turn, a daily limit
   * drawn from the options and a per-transaction limit drawn from those it
   * allows; `dailyTotals` and `perTransactions` are the values drawn.
   */
  method GenerateTransactionLimits(customerIds: seq<int>, dailyTotals: seq<int>, perTransactions: seq<int>)
    returns (limits: seq<LimitRecord>)
    requires |dailyTotals| == |customerIds| && |perTransactions| == |customerIds|
    requires forall i :: 0 <= i < |customerIds| ==> dailyTotals[i] in DailyLimitOptions
    requires forall i :: 0 <= i < |customerIds| ==> perTransactions[i] in PerTransactionChoices(dailyTotals[i])
    ensures LimitsLayout(limits, customerIds, dailyTotals, perTransactions, |customerIds|)
  {
    limits := [];
    for i := 0 to |customerIds|
      invariant LimitsLayout(limits, customerIds, dailyTotals, perTransactions, i)
    {
      var pair := LimitPair(customerIds[i], dailyTotals[i], perTransactions[i]);
      LimitsLayoutExtend(limits, pair, customerIds, dailyTotals, perTransactions, i);
      limits := limits + pair;
    }
  }

  /**
   * The first `n` customers' records, two per customer in customer order:
   * the daily limit drawn, then the per-transaction limit drawn, within it.
   */
  predicate LimitsLayout(limits: seq<LimitRecord>, customerIds: seq<int>, dailyTotals: seq<int>, perTransactions: seq<int>, n: nat)
    requires n <= |customerIds| && n <= |dailyTotals| && n <= |perTransactions|
  {
    && |limits| == 2 * n
    && forall j :: 0 <= j < n ==> LimitsOf(limits[2 * j], limits[2 * j + 1], customerIds[j], dailyTotals[j], perTransactions[j])
  }

  lemma LimitsLayoutExtend(limits: seq<LimitRecord>, pair: seq<LimitRecord>, customerIds: seq<int>, dailyTotals: seq<int>, perTransactions: seq<int>, n: nat)
    requires n < |customerIds| && n < |dailyTotals| && n < |perTransactions|
    requires LimitsLayout(limits, customerIds, dailyTotals, perTransactions, n)
    requires |pair| == 2 && LimitsOf(pair[0], pair[1], customerIds[n], dailyTotals[n], perTransactions[n])
    ensures LimitsLayout(limits + pair, customerIds, dailyTotals, perTransactions, n + 1)
  {
    var extended := limits + pair;
    assert extended[2 * n] == pair[0] && extended[2 * n + 1] == pair[1];
    forall j | 0 <= j < n
      ensures LimitsOf(extended[2 * j], extended[2 * j + 1], customerIds[j], dailyTotals[j], perTransactions[j])
    {
      assert extended[2 * j] == limits[2 * j] && extended[2 * j + 1] == limits[2 * j + 1];
    }
  }

  /** The two records appended for one customer. */
  function LimitPair(customerId: int, dailyTotal: int, perTransaction: int): (pair: seq<LimitRecord>)
    requires dailyTotal in DailyLimitOptions && perTransaction in PerTransactionChoices(dailyTotal)
    ensures |pair| == 2 && LimitsOf(pair[0], pair[1], customerId, dailyTotal, perTransaction)
  {
    PerTransactionWithinDaily(dailyTotal, perTransaction);
    [LimitRecord(customerId, DailyTotal, dailyTotal, "VND"), LimitRecord(customerId, PerTransaction, perTransaction, "VND")]
  }

  /** `'biometric'` for categories C and D, otherwise `pin` or `otp` as drawn. */
  function AuthMethod(regulationCategory: Value, drawsPin: bool): (m: string)
    ensures m == "biometric" <==> regulationCategory in [Str("C"), Str("D")]
    ensures m != "biometric" ==> m == (if drawsPin then "pin" else "otp")
  {
    if regulationCategory in [Str("C"), Str("D")] then "biometric"
    else if drawsPin then "pin" else "otp"
  }

  function AuthResult(status: Value): (r: string)
    ensures r == "success" <==> status == Str("completed")
  {
    if status == Str("completed") then "success" else "failure"
  }

  /** The log row written for a transaction row of the joined query. */
  function AuthLogFor(t: Row, drawsPin: bool): (l: Row)
    ensures Cell(l, "transaction_id") == Cell(t, "transaction_id")
    ensures Cell(l, "result") == Str("success") <==> Cell(t, "status") == Str("completed")
  {
    map[
      "customer_id" := Cell(t, "customer_id"),
      "device_id" := Cell(t, "device_id"),
      "transaction_id" := Cell(t, "transaction_id"),
      "auth_method" := Str(AuthMethod(Cell(t, "regulation_category"), drawsPin)),
      "result" := Str(AuthResult(Cell(t, "status")))]
  }

  /** No method the generator writes is one the audit accepts as strong. */
  lemma GeneratedMethodsAreWeak(regulationCategory: Value, drawsPin: bool)
    ensures AuthMethod(regulationCategory, drawsPin) !in StrongAuthMethods
  {
  }

  function AuthLogsFor(ts: seq<Row>, pins: seq<bool>): (logs: seq<Row>)
    requires |pins| == |ts|
    ensures |logs| == |ts|
    ensures forall i :: 0 <= i < |logs| ==> logs[i] == AuthLogFor(ts[i], pins[i])
  {
    seq(|ts|, i requires 0 <= i < |ts| => AuthLogFor(ts[i], pins[i]))
  }

  /**
   * Consequently the generated logs clear nothing: over generated data the
   * high-value check flags every completed high-value transaction that has
   * an id, biometric logs of category C included.
   */
  lemma GeneratedLogsFlagEveryHighValue(ts: seq<Row>, pins: seq<bool>)
    requires |pins| == |ts|
    ensures UnauthenticatedHighValue(ts, AuthLogsFor(ts, pins)) == Count(ts, t => IsHighValue(t) && Cell(t, "transaction_id") != Null)
  {
    var logs := AuthLogsFor(ts, pins);
    forall i | 0 <= i < |logs|
      ensures !IsStrongSuccess(logs[i])
    {
      GeneratedMethodsAreWeak(Cell(ts[i], "regulation_category"), pins[i]);
    }
    WeakLogsClearNothing(ts, logs);
  }

  // ---------------------------------------------------------------------
  // Identity documents
  // ---------------------------------------------------------------------

  /** A CCCD number: the decimal form of a draw from `[10^11, 10^12 - 1]`. */
  function CccdNumber(n: nat): (s: string)
    requires Pow10(11) <= n < Pow10(12)
    ensures IsCccdNumber(s)
  {
    NatToStringLength(n, 12);
    NatToString(n)
  }

  /** A passport number: one of B, C, K followed by a draw from `[10^6, 10^7 - 1]`. */
  function PassportNumber(letter: char, n: nat): (s: string)
    requires letter in "BCK" && Pow10(6) <= n < Pow10(7)
    ensures IsPassportNumber(s)
  {
    NatToStringLength(n, 7);
    var s := [letter] + NatToString(n);
    assert s[1..] == NatToString(n);
    s
  }

  datatype CustomerInfo = CustomerInfo(customerId: int, status: string)

  /** The random part of one document: its type and the drawn letter and number. */
  datatype DocumentDraw = DocumentDraw(isCccd: bool, letter: char, n: nat)

  predicate ValidDraw(d: DocumentDraw) {
    if d.isCccd then Pow10(11) <= d.n < Pow10(12) else d.letter in "BCK" && Pow10(6) <= d.n < Pow10(7)
  }

  datatype IdentityDocument = IdentityDocument(customerId: int, documentNumber: string, documentType: string)

  function DocumentFrom(customerId: int, d: DocumentDraw): (doc: IdentityDocument)
    requires ValidDraw(d)
    ensures doc.customerId == customerId
    ensures doc.documentType == (if d.isCccd then "CCCD" else "Passport")
    ensures doc.documentType == "CCCD" ==> IsCccdNumber(doc.documentNumber)
    ensures doc.documentType == "Passport" ==> IsPassportNumber(doc.documentNumber)
  {
    if d.isCccd then IdentityDocument(customerId, CccdNumber(d.n), "CCCD")
    else IdentityDocument(customerId, PassportNumber(d.letter, d.n), "Passport")
  }

  predicate IsActive(c: CustomerInfo) {
    c.status == "active"
  }

  /** The ids of the active customers. */
  function ActiveIds(customers: seq<CustomerInfo>): set<int> {
    set c | c in customers && IsActive(c) :: c.customerId
  }

  /** A document whose number has the shape its type demands. */
  predicate WellFormedDocument(doc: IdentityDocument) {
    && (doc.documentType == "CCCD" || doc.documentType == "Passport")
    && (doc.documentType == "CCCD" ==> IsCccdNumber(doc.documentNumber))
    && (doc.documentType == "Passport" ==> IsPassportNumber(doc.documentNumber))
  }

  /** The positions of the active customers, in increasing order. */
  function ActivePositions(customers: seq<CustomerInfo>): (ps: seq<nat>)
    ensures forall j :: 0 <= j < |ps| ==> ps[j] < |customers|
  {
    if customers == [] then []
    else
      var n := |customers| - 1;
      ActivePositions(customers[..n]) + (if IsActive(customers[n]) then [n] else [])
  }

  /**
   * The positions listed are exactly the active ones, each once and in
   * increasing order, so there are as many as there are active customers.
   */
  lemma {:induction false} ActivePositionsExact(customers: seq<CustomerInfo>)
    ensures forall j, k :: 0 <= j < k < |ActivePositions(customers)| ==> ActivePositions(customers)[j] < ActivePositions(customers)[k]
    ensures forall i: nat :: i in ActivePositions(customers) <==> i < |customers| && IsActive(customers[i])
    ensures |ActivePositions(customers)| == Count(customers, IsActive)
  {
    if customers != [] {
      var n := |customers| - 1;
      var init := customers[..n];
      ActivePositionsExact(init);
      assert customers == init + [customers[n]];
      CountAppend(init, [customers[n]], IsActive);
      assert forall i :: 0 <= i < n ==> init[i] == customers[i];
    }
  }

  /** The documents of the first `n` customers: one per active customer, from that customer's draw. */
  predicate DocumentsLayout(docs: seq<IdentityDocument>, customers: seq<CustomerInfo>, draws: seq<DocumentDraw>, n: nat)
    requires n <= |customers| == |draws|
    requires forall i :: 0 <= i < |draws| ==> ValidDraw(draws[i])
  {
    var ps := ActivePositions(customers[..n]);
    && |docs| == |ps|
    && forall j :: 0 <= j < |docs| ==> docs[j] == DocumentFrom(customers[ps[j]].customerId, draws[ps[j]])
  }

  lemma DocumentsLayoutExtend(docs: seq<IdentityDocument>, customers: seq<CustomerInfo>, draws: seq<DocumentDraw>, n: nat)
    requires n < |customers| == |draws|
    requires forall i :: 0 <= i < |draws| ==> ValidDraw(draws[i])
    requires DocumentsLayout(docs, customers, draws, n)
    ensures IsActive(customers[n]) ==> DocumentsLayout(docs + [DocumentFrom(customers[n].customerId, draws[n])], customers, draws, n + 1)
    ensures !IsActive(customers[n]) ==> DocumentsLayout(docs, customers, draws, n + 1)
  {
    assert customers[..n + 1][..n] == customers[..n];
  }

  /**
   * `generate_identity_documents`: one document per active customer, in
   * customer order; `draws[i]` is what would be drawn for customer `i`.
   */
  method GenerateIdentityDocuments(customers: seq<CustomerInfo>, draws: seq<DocumentDraw>) returns (docs: seq<IdentityDocument>)
    requires |draws| == |customers|
    requires forall i :: 0 <= i < |draws| ==> ValidDraw(draws[i])
    ensures |docs| == |ActivePositions(customers)| == Count(customers, IsActive)
    ensures forall j :: 0 <= j < |docs| ==>
      docs[j] == DocumentFrom(customers[ActivePositions(customers)[j]].customerId, draws[ActivePositions(customers)[j]])
    ensures forall i :: 0 <= i < |docs| ==> WellFormedDocument(docs[i])
    ensures forall i :: 0 <= i < |docs| ==> docs[i].customerId in ActiveIds(customers)
  {
    docs := [];
    for i := 0 to |customers|
      invariant DocumentsLayout(docs, customers, draws, i)
      invariant forall k :: 0 <= k < |docs| ==> WellFormedDocument(docs[k])
      invariant forall k :: 0 <= k < |docs| ==> docs[k].customerId in ActiveIds(customers)
    {
      DocumentsLayoutExtend(docs, customers, draws, i);
      if customers[i].status == "active" {
        var doc := DocumentFrom(customers[i].customerId, draws[i]);
        assert customers[i] in customers;
        docs := docs + [doc];
      }
    }
    assert customers[..|customers|] == customers;
    ActivePositionsExact(customers);
  }

  function DocumentRow(doc: IdentityDocument): Row {
    map["customer_id" := Int(doc.customerId), "document_number" := Str(doc.documentNumber), "document_type" := Str(doc.documentType)]
  }

  function DocumentRows(docs: seq<IdentityDocument>): (rows: seq<Row>)
    ensures |rows| == |docs|
    ensures forall i :: 0 <= i < |rows| ==> rows[i] == DocumentRow(docs[i])
  {
    seq(|docs|, i requires 0 <= i < |docs| => DocumentRow(docs[i]))
  }

  /** The generated documents never fail the document-format check. */
  lemma GeneratedDocumentsPassFormatCheck(docs: seq<IdentityDocument>)
    requires forall i :: 0 <= i < |docs| ==> WellFormedDocument(docs[i])
    ensures Count(DocumentRows(docs), BadlyFormatted) == 0
    ensures InvalidDocumentQuery(DocumentRows(docs)) == 0
  {
    var rows := DocumentRows(docs);
    forall i | 0 <= i < |rows|
      ensures !BadlyFormatted(rows[i])
    {
      assert Cell(rows[i], "document_number") == Str(docs[i].documentNumber);
      assert Cell(rows[i], "document_type") == Str(docs[i].documentType);
    }
    CountZero(rows, BadlyFormatted);
    InvalidDocumentQueryMeaning(rows);
  }

  // ---------------------------------------------------------------------
  // Account numbers
  // ---------------------------------------------------------------------

  /** "102" followed by the decimal form of a draw from `[10^9, 10^10 - 1]`. */
  function AccountNumber(n: nat): (s: string)
    requires Pow10(9) <= n < Pow10(10)
    ensures |s| == 13 && StartsWith(s, "102") && AllDigits(s)
  {
    NatToStringLength(n, 10);
    var s := "102" + NatToString(n);
    assert s[..3] == "102";
    assert forall i :: 3 <= i < |s| ==> s[i] == NatToString(n)[i - 3];
    s
  }

  predicate ValidAccountDraws(draws: seq<nat>) {
    forall i :: 0 <= i < |draws| ==> Pow10(9) <= draws[i] < Pow10(10)
  }

  /** The account numbers handed out so far, `used_account_numbers`. */
  class AccountNumberRegistry {
    var used: set<string>

    constructor()
      ensures used == {}
    {
      used := {};
    }

    /** `used_account_numbers.clear()`. */
    method Clear()
      modifies this
      ensures used == {}
    {
      used := {};
    }

    /**
     * The `while True` loop: draws numbers until one has not been handed out,
     * records it and returns it. `draws` is the stream of draws; when it runs
     * out before a fresh number turns up, nothing is recorded.
     */
    method DrawFresh(draws: seq<nat>) returns (accountNumber: Option<string>, consumed: nat)
      requires ValidAccountDraws(draws)
      modifies this
      ensures consumed <= |draws|
      ensures accountNumber.Some? ==>
        && 0 < consumed
        && accountNumber.value == AccountNumber(draws[consumed - 1])
        && accountNumber.value !in old(used)
        && used == old(used) + {accountNumber.value}
        && forall k :: 0 <= k < consumed - 1 ==> AccountNumber(draws[k]) in old(used)
      ensures accountNumber.None? ==>
        && consumed == |draws|
        && used == old(used)
        && forall k :: 0 <= k < |draws| ==> AccountNumber(draws[k]) in old(used)
    {
      consumed := 0;
      while consumed < |draws|
        invariant consumed <= |draws|
        invariant used == old(used)
        invariant forall k :: 0 <= k < consumed ==> AccountNumber(draws[k]) in used
      {
        var candidate := AccountNumber(draws[consumed]);
        consumed := consumed + 1;
        if candidate !in used {
          used := used + {candidate};
          return Some(candidate), consumed;
        }
      }
      return None, consumed;
    }
  }

  /** An issued account: its owner and its number. */
  datatype Account = Account(customerId: int, accountNumber: string)

  /**
   * The number-drawing part of `generate_accounts`: the registry is cleared,
   * then each active customer, in order, receives the number of accounts
   * drawn for it, each with a number no earlier account has. The draws are
   * consumed in order; the model stops early, and says so in `ranOut`, if
   * they run out.
   */
  method GenerateAccounts(registry: AccountNumberRegistry, customers: seq<CustomerInfo>, accountCounts: seq<nat>, draws: seq<nat>)
    returns (accounts: seq<Account>, ranOut: bool)
    requires |accountCounts| == |customers|
    requires forall i :: 0 <= i < |accountCounts| ==> 1 <= accountCounts[i] <= 2
    requires ValidAccountDraws(draws)
    modifies registry
    ensures IssuedTo(accounts, customers)
    ensures registry.used == NumbersOf(accounts)
    ensures !ranOut ==> OwnerIds(accounts) == Owners(customers, accountCounts)
    ensures ranOut ==> OwnerIds(accounts) < Owners(customers, accountCounts)
    ensures ranOut ==> forall k :: 0 <= k < |draws| ==> AccountNumber(draws[k]) in registry.used
  {
    registry.Clear();
    accounts := [];
    ranOut := false;
    var rest := draws;
    for c := 0 to |customers|
      invariant ValidAccountDraws(rest)
      invariant DrawsRead(draws, rest, registry.used)
      invariant IssuedTo(accounts, customers)
      invariant registry.used == NumbersOf(accounts)
      invariant OwnerIds(accounts) == Owners(customers[..c], accountCounts[..c])
    {
      OwnersStep(customers, accountCounts, c);
      if customers[c].status == "active" {
        var issued, left;
        ghost var before := registry.used;
        accounts, left, issued := IssueAccounts(registry, customers, c, accountCounts[c], accounts, rest);
        DrawsReadTrans(draws, rest, left, before, registry.used);
        rest := left;
        if issued < accountCounts[c] {
          ranOut := true;
          StoppedShort(customers, accountCounts, c, issued, OwnerIds(accounts));
          return;
        }
      } else {
        assert Owners(customers[..c], accountCounts[..c]) + [] == Owners(customers[..c], accountCounts[..c]);
      }
    }
    assert customers[..|customers|] == customers && accountCounts[..|customers|] == accountCounts;
  }

  /**
   * The inner loop of `generate_accounts`: `count` accounts for the active
   * customer `c`, each with a fresh number, after the accounts issued
   * before. `issued` falls short of `count` only when the draws run out,
   * every one of them having given a number then in use.
   */
  method IssueAccounts(registry: AccountNumberRegistry, customers: seq<CustomerInfo>, c: nat, count: nat, accounts: seq<Account>, draws: seq<nat>)
    returns (extended: seq<Account>, rest: seq<nat>, issued: nat)
    requires c < |customers| && IsActive(customers[c])
    requires ValidAccountDraws(draws)
    requires IssuedTo(accounts, customers) && registry.used == NumbersOf(accounts)
    modifies registry
    ensures ValidAccountDraws(rest) && DrawsRead(draws, rest, registry.used)
    ensures old(registry.used) <= registry.used
    ensures IssuedTo(extended, customers) && registry.used == NumbersOf(extended)
    ensures issued <= count
    ensures |accounts| <= |extended| && extended[..|accounts|] == accounts
    ensures OwnerIds(extended) == OwnerIds(accounts) + Repeat(customers[c].customerId, issued)
    ensures issued < count ==> rest == [] && forall k :: 0 <= k < |draws| ==> AccountNumber(draws[k]) in registry.used
  {
    var id := customers[c].customerId;
    extended := accounts;
    rest := draws;
    issued := 0;
    assert OwnerIds(accounts) + Repeat(id, 0) == OwnerIds(accounts);
    while issued < count
      invariant issued <= count
      invariant ValidAccountDraws(rest) && DrawsRead(draws, rest, registry.used)
      invariant old(registry.used) <= registry.used
      invariant IssuedTo(extended, customers) && registry.used == NumbersOf(extended)
      invariant |accounts| <= |extended| && extended[..|accounts|] == accounts
      invariant OwnerIds(extended) == OwnerIds(accounts) + Repeat(id, issued)
    {
      ghost var before := registry.used;
      ghost var previous := extended;
      var left, ok;
      extended, left, ok := IssueNext(registry, customers, c, extended, rest);
      DrawsReadTrans(draws, rest, left, before, registry.used);
      rest := left;
      if !ok {
        return;
      }
      RepeatStep(id, issued);
      assert extended[..|accounts|] == previous[..|accounts|];
      issued := issued + 1;
    }
  }

  /**
   * One pass of the inner loop: draw a fresh number for customer `c` and
   * append its account, or report that the draws ran out, each of them
   * having given a number already in use.
   */
  method IssueNext(registry: AccountNumberRegistry, customers: seq<CustomerInfo>, c: nat, accounts: seq<Account>, draws: seq<nat>)
    returns (extended: seq<Account>, rest: seq<nat>, ok: bool)
    requires c < |customers| && IsActive(customers[c])
    requires ValidAccountDraws(draws)
    requires IssuedTo(accounts, customers) && registry.used == NumbersOf(accounts)
    modifies registry
    ensures ValidAccountDraws(rest) && DrawsRead(draws, rest, registry.used)
    ensures old(registry.used) <= registry.used
    ensures IssuedTo(extended, customers) && registry.used == NumbersOf(extended)
    ensures ok ==> |extended| == |accounts| + 1 && extended[..|accounts|] == accounts
    ensures ok ==> OwnerIds(extended) == OwnerIds(accounts) + [customers[c].customerId]
    ensures ok ==> |rest| < |draws| && extended[|accounts|].accountNumber == AccountNumber(draws[|draws| - |rest| - 1])
    ensures !ok ==> extended == accounts && rest == []
  {
    ghost var before := registry.used;
    var drawn, consumed := registry.DrawFresh(draws);
    forall k | 0 <= k < consumed
      ensures AccountNumber(draws[k]) in registry.used
    {
      if drawn.Some? && k < consumed - 1 {
        assert AccountNumber(draws[k]) in before;
      }
    }
    assert DrawsRead(draws, draws, before);
    DrawsReadStep(draws, draws, consumed, before, registry.used);
    rest := draws[consumed..];
    if drawn.None? {
      return accounts, rest, false;
    }
    var account := Account(customers[c].customerId, drawn.value);
    IssueOne(accounts, customers, c, account);
    OwnerIdsAppend(accounts, account);
    extended := accounts + [account];
    assert extended[..|accounts|] == accounts;
    ok := true;
  }

  /**
   * `rest` is what is left of the stream `draws`, and every draw read so
   * far gave a number that is now in use.
   */
  predicate DrawsRead(draws: seq<nat>, rest: seq<nat>, used: set<string>)
    requires ValidAccountDraws(draws)
  {
    && |rest| <= |draws| && rest == draws[|draws| - |rest|..]
    && forall k :: 0 <= k < |draws| - |rest| ==> AccountNumber(draws[k]) in used
  }

  /** Reading `consumed` more draws, each giving a number now in use. */
  lemma DrawsReadStep(draws: seq<nat>, rest: seq<nat>, consumed: nat, before: set<string>, after: set<string>)
    requires ValidAccountDraws(draws) && ValidAccountDraws(rest)
    requires DrawsRead(draws, rest, before) && before <= after && consumed <= |rest|
    requires forall k :: 0 <= k < consumed ==> AccountNumber(rest[k]) in after
    ensures ValidAccountDraws(rest[consumed..]) && DrawsRead(draws, rest[consumed..], after)
  {
    var read := |draws| - |rest|;
    forall k | read <= k < read + consumed
      ensures AccountNumber(draws[k]) in after
    {
      assert draws[k] == rest[k - read];
    }
  }

  /** Two stretches of reading make one. */
  lemma DrawsReadTrans(draws: seq<nat>, mid: seq<nat>, rest: seq<nat>, before: set<string>, after: set<string>)
    requires ValidAccountDraws(draws) && ValidAccountDraws(mid)
    requires DrawsRead(draws, mid, before) && DrawsRead(mid, rest, after) && before <= after
    ensures DrawsRead(draws, rest, after)
  {
    var read := |draws| - |mid|;
    forall k | read <= k < |draws| - |rest|
      ensures AccountNumber(draws[k]) in after
    {
      assert draws[k] == mid[k - read];
    }
  }

  /**
   * Accounts issued to the given customers: every owner is an active
   * customer, every number is "102" followed by ten digits, and no two
   * accounts share a number.
   */
  predicate IssuedTo(accounts: seq<Account>, customers: seq<CustomerInfo>) {
    && (forall i :: 0 <= i < |accounts| ==> accounts[i].customerId in ActiveIds(customers))
    && (forall i :: 0 <= i < |accounts| ==>
          |accounts[i].accountNumber| == 13 && StartsWith(accounts[i].accountNumber, "102") && AllDigits(accounts[i].accountNumber))
    && (forall i, j :: 0 <= i < j < |accounts| ==> accounts[i].accountNumber != accounts[j].accountNumber)
  }

  /** An account for an active customer with a fresh number of the right form keeps the accounts well issued. */
  lemma IssueOne(accounts: seq<Account>, customers: seq<CustomerInfo>, c: nat, account: Account)
    requires IssuedTo(accounts, customers)
    requires c < |customers| && IsActive(customers[c]) && account.customerId == customers[c].customerId
    requires |account.accountNumber| == 13 && StartsWith(account.accountNumber, "102") && AllDigits(account.accountNumber)
    requires account.accountNumber !in NumbersOf(accounts)
    ensures IssuedTo(accounts + [account], customers)
    ensures NumbersOf(accounts + [account]) == NumbersOf(accounts) + {account.accountNumber}
  {
    assert customers[c] in customers;
    NumbersOfAppend(accounts, account);
  }

  /** `n` copies of an id. */
  function Repeat(x: int, n: nat): (r: seq<int>)
    ensures |r| == n && forall i :: 0 <= i < n ==> r[i] == x
  {
    seq(n, _ => x)
  }

  lemma RepeatStep(x: int, n: nat)
    ensures Repeat(x, n + 1) == Repeat(x, n) + [x]
  {
    assert Repeat(x, n + 1) == Repeat(x, n) + [x];
  }

  /** The owner of each account issued so far, in issuing order. */
  function OwnerIds(accounts: seq<Account>): (ids: seq<int>)
    ensures |ids| == |accounts|
  {
    seq(|accounts|, i requires 0 <= i < |accounts| => accounts[i].customerId)
  }

  lemma OwnerIdsAppend(accounts: seq<Account>, account: Account)
    ensures OwnerIds(accounts + [account]) == OwnerIds(accounts) + [account.customerId]
  {
    assert OwnerIds(accounts + [account]) == OwnerIds(accounts) + [account.customerId];
  }

  /**
   * The owners of the accounts `generate_accounts` issues, in order: each
   * active customer's id as many times as accounts were drawn for it, and
   * nothing for the others.
   */
  function Owners(customers: seq<CustomerInfo>, accountCounts: seq<nat>): seq<int>
    requires |accountCounts| == |customers|
  {
    if customers == [] then []
    else
      var n := |customers| - 1;
      Owners(customers[..n], accountCounts[..n]) + (if IsActive(customers[n]) then Repeat(customers[n].customerId, accountCounts[n]) else [])
  }

  lemma OwnersStep(customers: seq<CustomerInfo>, accountCounts: seq<nat>, c: nat)
    requires |accountCounts| == |customers| && c < |customers|
    ensures Owners(customers[..c + 1], accountCounts[..c + 1]) ==
      Owners(customers[..c], accountCounts[..c]) + (if IsActive(customers[c]) then Repeat(customers[c].customerId, accountCounts[c]) else [])
  {
    assert customers[..c + 1][..c] == customers[..c] && accountCounts[..c + 1][..c] == accountCounts[..c];
  }

  /** The owners for the first customers are a prefix of the owners for all of them. */
  lemma {:induction false} OwnersPrefix(customers: seq<CustomerInfo>, accountCounts: seq<nat>, m: nat)
    requires |accountCounts| == |customers| && m <= |customers|
    ensures Owners(customers[..m], accountCounts[..m]) <= Owners(customers, accountCounts)
  {
    if m == |customers| {
      assert customers[..m] == customers && accountCounts[..m] == accountCounts;
    } else {
      var n := |customers| - 1;
      OwnersPrefix(customers[..n], accountCounts[..n], m);
      assert customers[..n][..m] == customers[..m] && accountCounts[..n][..m] == accountCounts[..m];
    }
  }

  /** Running out while issuing the `k`-th account of customer `c` leaves a proper prefix of the owners. */
  lemma StoppedShort(customers: seq<CustomerInfo>, accountCounts: seq<nat>, c: nat, k: nat, ids: seq<int>)
    requires |accountCounts| == |customers| && c < |customers| && IsActive(customers[c]) && k < accountCounts[c]
    requires ids == Owners(customers[..c], accountCounts[..c]) + Repeat(customers[c].customerId, k)
    ensures ids < Owners(customers, accountCounts)
  {
    OwnersStep(customers, accountCounts, c);
    CutShort(Owners(customers[..c], accountCounts[..c]), customers[c].customerId, k, accountCounts[c]);
    OwnersPrefix(customers, accountCounts, c + 1);
  }

  /** Stopping after `k` of `total` copies leaves a proper prefix. */
  lemma CutShort(start: seq<int>, x: int, k: nat, total: nat)
    requires k < total
    ensures start + Repeat(x, k) < start + Repeat(x, total)
  {
    assert (start + Repeat(x, total))[..|start| + k] == start + Repeat(x, k);
  }

  /** The numbers of some accounts. */
  function NumbersOf(accounts: seq<Account>): set<string> {
    set a | a in accounts :: a.accountNumber
  }

  lemma NumbersOfAppend(accounts: seq<Account>, account: Account)
    ensures NumbersOf(accounts + [account]) == NumbersOf(accounts) + {account.accountNumber}
    ensures forall i :: 0 <= i < |accounts| ==> accounts[i].accountNumber in NumbersOf(accounts)
  {
    assert forall a :: a in accounts + [account] <==> a in accounts || a == account;
    assert forall i :: 0 <= i < |accounts| ==> accounts[i] in accounts;
  }

  // ---------------------------------------------------------------------
  // Daily limit trackers
  // ---------------------------------------------------------------------

  /** The `CASE` of the tracker query: the limit group a transaction type counts towards. */
  function TypeGroup(transactionType: string): (g: string)
    ensures g in ["NHOM_I.1", "NHOM_I.2", "NHOM_I.3"]
  {
    if transactionType == "P2P_TRANSFER" then "NHOM_I.3"
    else if transactionType == "BILL_PAYMENT" then "NHOM_I.2"
    else "NHOM_I.1"
  }

  /** A row of the tracker query: a completed transaction, by customer and creation time, with its type. */
  datatype TrackedTransaction = TrackedTransaction(customerId: int, amount: int, regulationCategory: string, trackingDate: int, transactionType: string)

  /** A tracker is kept per customer, day and limit group. */
  datatype TrackerKey = TrackerKey(customerId: int, trackingDate: int, group: string)

  /** `T`, the day's total, and `Tksth`, the running total since the last category C or D transaction. */
  datatype Totals = Totals(total: int, runningTotal: int)

  datatype TrackerRecord = TrackerRecord(customerId: int, group: string, totalDailyAmount: int, runningTotalAmount: int, trackingDate: int)

  function KeyOf(t: TrackedTransaction): TrackerKey {
    TrackerKey(t.customerId, t.trackingDate, TypeGroup(t.transactionType))
  }

  predicate ResetsRunningTotal(t: TrackedTransaction) {
    t.regulationCategory in ["C", "D"]
  }

  function KeysOf(ts: seq<TrackedTransaction>): set<TrackerKey> {
    set t | t in ts :: KeyOf(t)
  }

  /** The sum of the amounts of the transactions with this key. */
  function TotalFor(ts: seq<TrackedTransaction>, key: TrackerKey): int {
    if ts == [] then 0
    else
      var last := ts[|ts| - 1];
      TotalFor(ts[..|ts| - 1], key) + (if KeyOf(last) == key then last.amount else 0)
  }

  /** The running total as the rows are read in order: reset to 0 by a category C or D row, added to by the others. */
  function RunningFor(ts: seq<TrackedTransaction>, key: TrackerKey): int {
    if ts == [] then 0
    else
      var last := ts[|ts| - 1];
      var before := RunningFor(ts[..|ts| - 1], key);
      if KeyOf(last) != key then before
      else if ResetsRunningTotal(last) then 0
      else before + last.amount
  }

  /**
   * `generate_daily_limit_trackers`: one tracker per key met, in the order
   * the keys first appear, with the day's total and the running total of
   * its transactions.
   */
  method GenerateDailyLimitTrackers(ts: seq<TrackedTransaction>) returns (records: seq<TrackerRecord>)
    ensures (set r | r in records :: TrackerKey(r.customerId, r.trackingDate, r.group)) == KeysOf(ts)
    ensures forall i, j :: 0 <= i < j < |records| ==>
      TrackerKey(records[i].customerId, records[i].trackingDate, records[i].group) != TrackerKey(records[j].customerId, records[j].trackingDate, records[j].group)
    ensures forall r :: r in records ==>
      && r.totalDailyAmount == TotalFor(ts, TrackerKey(r.customerId, r.trackingDate, r.group))
      && r.runningTotalAmount == RunningFor(ts, TrackerKey(r.customerId, r.trackingDate, r.group))
    ensures forall r :: r in records ==> r.group in ["NHOM_I.1", "NHOM_I.2", "NHOM_I.3"]
    ensures forall i, j :: 0 <= i < j < |records| ==>
      FirstIndex(ts, TrackerKey(records[i].customerId, records[i].trackingDate, records[i].group)) <
      FirstIndex(ts, TrackerKey(records[j].customerId, records[j].trackingDate, records[j].group))
  {
    var trackers, order := AggregateTrackers(ts);
    records := TrackerRecords(trackers, order);
    KeysHaveGroups(ts);
  }

  /**
   * The aggregation loop: `trackers` holds, for every key met, the day's
   * total and the running total of its rows, and `order` lists the keys
   * once each in the order they were first met.
   */
  method AggregateTrackers(ts: seq<TrackedTransaction>) returns (trackers: map<TrackerKey, Totals>, order: seq<TrackerKey>)
    ensures trackers.Keys == KeysOf(ts)
    ensures forall k :: k in order <==> k in trackers
    ensures forall a, b :: 0 <= a < b < |order| ==> order[a] != order[b]
    ensures forall k :: k in trackers ==> trackers[k] == Totals(TotalFor(ts, k), RunningFor(ts, k))
    ensures FirstSeenOrder(ts, order, |ts|)
  {
    trackers := map[];
    order := [];
    for i := 0 to |ts|
      invariant Aggregated(ts, i, trackers, order)
      invariant FirstSeenOrder(ts, order, i)
    {
      FirstSeenStep(ts, order, i);
      trackers, order := AggregateStep(ts, i, trackers, order);
    }
    assert ts[..|ts|] == ts;
    FirstSeenDistinct(ts, order, |ts|);
  }

  /** The state of the aggregation loop after the first `i` transactions. */
  ghost predicate Aggregated(ts: seq<TrackedTransaction>, i: nat, trackers: map<TrackerKey, Totals>, order: seq<TrackerKey>)
    requires i <= |ts|
  {
    && trackers.Keys == KeysOf(ts[..i])
    && (forall k :: k in order <==> k in trackers)
    && (forall k :: k in trackers ==> trackers[k] == Totals(TotalFor(ts[..i], k), RunningFor(ts[..i], k)))
  }

  /**
   * One pass of the aggregation loop: the transaction's key is added
   * with zero totals when it is new, then its amount is added to both
   * totals and the running total is cleared for categories C and D.
   */
  method AggregateStep(ts: seq<TrackedTransaction>, i: nat, trackers: map<TrackerKey, Totals>, order: seq<TrackerKey>)
    returns (trackers': map<TrackerKey, Totals>, order': seq<TrackerKey>)
    requires i < |ts| && Aggregated(ts, i, trackers, order)
    ensures Aggregated(ts, i + 1, trackers', order')
    ensures order' == if KeyOf(ts[i]) in trackers then order else order + [KeyOf(ts[i])]
  {
    var t := ts[i];
    var key := KeyOf(t);
    TrackerStep(ts, i);
    trackers', order' := trackers, order;
    if key !in trackers' {
      AbsentKeyHasNothing(ts[..i], key);
      trackers' := trackers'[key := Totals(0, 0)];
      order' := order' + [key];
    }
    assert order' == if key in trackers then order else order + [key];
    var totals := trackers'[key];
    totals := totals.(total := totals.total + t.amount, runningTotal := totals.runningTotal + t.amount);
    if t.regulationCategory in ["C", "D"] {
      totals := totals.(runningTotal := 0);
    }
    trackers' := trackers'[key := totals];
  }

  /** The position of the first transaction with this key, or `|ts|` when there is none. */
  function FirstIndex(ts: seq<TrackedTransaction>, k: TrackerKey): (r: nat)
    ensures r <= |ts|
    ensures r < |ts| ==> KeyOf(ts[r]) == k
  {
    if ts == [] then 0
    else if KeyOf(ts[0]) == k then 0
    else 1 + FirstIndex(ts[1..], k)
  }

  /** No transaction before the first index has the key. */
  lemma {:induction false} NothingBeforeFirstIndex(ts: seq<TrackedTransaction>, k: TrackerKey, m: nat)
    requires m < FirstIndex(ts, k)
    ensures KeyOf(ts[m]) != k
  {
    if m > 0 {
      NothingBeforeFirstIndex(ts[1..], k, m - 1);
      assert ts[m] == ts[1..][m - 1];
    }
  }

  /** The keys in `order` were first met before position `i`, and are listed in the order they were first met. */
  predicate FirstSeenOrder(ts: seq<TrackedTransaction>, order: seq<TrackerKey>, i: nat) {
    && (forall a :: 0 <= a < |order| ==> FirstIndex(ts, order[a]) < i)
    && (forall a, b :: 0 <= a < b < |order| ==> FirstIndex(ts, order[a]) < FirstIndex(ts, order[b]))
  }

  /**
   * One pass of the aggregation loop keeps the first-seen order: a key
   * already listed leaves the list as it was, and a new key is first met
   * at this position.
   */
  lemma FirstSeenStep(ts: seq<TrackedTransaction>, order: seq<TrackerKey>, i: nat)
    requires i < |ts| && FirstSeenOrder(ts, order, i)
    requires forall k :: k in order <==> k in KeysOf(ts[..i])
    ensures FirstSeenOrder(ts, if KeyOf(ts[i]) in order then order else order + [KeyOf(ts[i])], i + 1)
  {
    if KeyOf(ts[i]) !in order {
      FirstIndexOfNewKey(ts, i);
      FirstSeenExtend(ts, order, KeyOf(ts[i]), i);
    }
  }

  /** Keys listed in first-seen order are listed once each. */
  lemma FirstSeenDistinct(ts: seq<TrackedTransaction>, order: seq<TrackerKey>, i: nat)
    requires FirstSeenOrder(ts, order, i)
    ensures forall a, b :: 0 <= a < b < |order| ==> order[a] != order[b]
  {
  }

  /** A key first met before position `i` is among the keys of the first `i` transactions. */
  lemma FirstIndexInPrefix(ts: seq<TrackedTransaction>, k: TrackerKey, i: nat)
    requires i <= |ts|
    ensures FirstIndex(ts, k) < i ==> k in KeysOf(ts[..i])
  {
    var first := FirstIndex(ts, k);
    if first < i {
      assert ts[..i][first] == ts[first];
    }
  }

  /** Appending a key first met at position `i` to keys listed in first-seen order keeps that order. */
  lemma FirstSeenExtend(ts: seq<TrackedTransaction>, order: seq<TrackerKey>, key: TrackerKey, i: nat)
    requires FirstSeenOrder(ts, order, i) && FirstIndex(ts, key) == i
    ensures FirstSeenOrder(ts, order + [key], i + 1)
  {
    var extended := order + [key];
    forall a | 0 <= a < |extended|
      ensures FirstIndex(ts, extended[a]) < i + 1
    {
      if a < |order| {
        assert extended[a] == order[a];
      }
    }
    forall a, b | 0 <= a < b < |extended|
      ensures FirstIndex(ts, extended[a]) < FirstIndex(ts, extended[b])
    {
      assert extended[a] == order[a];
      if b < |order| {
        assert extended[b] == order[b];
      }
    }
  }

  /** The transaction at position `i` whose key is not met before it is where that key is first met. */
  lemma FirstIndexOfNewKey(ts: seq<TrackedTransaction>, i: nat)
    requires i < |ts|
    requires KeyOf(ts[i]) !in KeysOf(ts[..i])
    ensures FirstIndex(ts, KeyOf(ts[i])) == i
  {
    var key := KeyOf(ts[i]);
    FirstIndexInPrefix(ts, key, i);
    if FirstIndex(ts, key) > i {
      NothingBeforeFirstIndex(ts, key, i);
    }
  }

  /** Every tracker key carries one of the three limit groups. */
  lemma KeysHaveGroups(ts: seq<TrackedTransaction>)
    ensures forall k :: k in KeysOf(ts) ==> k.group in ["NHOM_I.1", "NHOM_I.2", "NHOM_I.3"]
  {
    forall k | k in KeysOf(ts)
      ensures k.group in ["NHOM_I.1", "NHOM_I.2", "NHOM_I.3"]
    {
      var t :| t in ts && KeyOf(t) == k;
    }
  }

  /** `trackers.items()` in insertion order, as records. */
  function TrackerRecords(trackers: map<TrackerKey, Totals>, order: seq<TrackerKey>): (records: seq<TrackerRecord>)
    requires forall k :: k in order ==> k in trackers
    ensures |records| == |order|
    ensures forall i :: 0 <= i < |order| ==> records[i] == TrackerRecord(order[i].customerId, order[i].group, trackers[order[i]].total, trackers[order[i]].runningTotal, order[i].trackingDate)
  {
    seq(|order|, i requires 0 <= i < |order| => TrackerRecord(order[i].customerId, order[i].group, trackers[order[i]].total, trackers[order[i]].runningTotal, order[i].trackingDate))
  }

  /** Reading one more row: its key joins the keys met, and only its key's totals move. */
  lemma TrackerStep(ts: seq<TrackedTransaction>, i: nat)
    requires i < |ts|
    ensures KeysOf(ts[..i + 1]) == KeysOf(ts[..i]) + {KeyOf(ts[i])}
    ensures forall k :: k != KeyOf(ts[i]) ==> TotalFor(ts[..i + 1], k) == TotalFor(ts[..i], k) && RunningFor(ts[..i + 1], k) == RunningFor(ts[..i], k)
    ensures TotalFor(ts[..i + 1], KeyOf(ts[i])) == TotalFor(ts[..i], KeyOf(ts[i])) + ts[i].amount
    ensures RunningFor(ts[..i + 1], KeyOf(ts[i])) == if ResetsRunningTotal(ts[i]) then 0 else RunningFor(ts[..i], KeyOf(ts[i])) + ts[i].amount
  {
    assert ts[..i + 1][..i] == ts[..i];
    assert ts[..i + 1] == ts[..i] + [ts[i]];
  }

  /** A key no transaction has totals nothing. */
  lemma {:induction false} AbsentKeyHasNothing(ts: seq<TrackedTransaction>, key: TrackerKey)
    requires key !in KeysOf(ts)
    ensures TotalFor(ts, key) == 0 && RunningFor(ts, key) == 0
  {
    if ts != [] {
      var init := ts[..|ts| - 1];
      assert KeysOf(init) <= KeysOf(ts);
      AbsentKeyHasNothing(init, key);
      assert ts[|ts| - 1] in ts;
    }
  }

  /** With no negative amounts, the running total never exceeds the day's total. */
  lemma {:induction false} RunningAtMostTotal(ts: seq<TrackedTransaction>, key: TrackerKey)
    requires forall i :: 0 <= i < |ts| ==> ts[i].amount >= 0
    ensures 0 <= RunningFor(ts, key) <= TotalFor(ts, key)
  {
    if ts != [] {
      var init := ts[..|ts| - 1];
      assert forall i :: 0 <= i < |init| ==> init[i] == ts[i];
      RunningAtMostTotal(init, key);
    }
  }

  /** Without a category C or D row for the key, the running total is the day's total. */
  lemma {:induction false} RunningWithoutReset(ts: seq<TrackedTransaction>, key: TrackerKey)
    requires forall i :: 0 <= i < |ts| && KeyOf(ts[i]) == key ==> !ResetsRunningTotal(ts[i])
    ensures RunningFor(ts, key) == TotalFor(ts, key)
  {
    if ts != [] {
      var init := ts[..|ts| - 1];
      assert forall i :: 0 <= i < |init| ==> init[i] == ts[i];
      RunningWithoutReset(init, key);
    }
  }

  /**
   * After the key's last category C or D row, at position `j`, the running
   * total is the sum of the key's amounts that come after it.
   */
  lemma {:induction false} RunningSinceLastReset(ts: seq<TrackedTransaction>, key: TrackerKey, j: nat)
    requires j < |ts| && KeyOf(ts[j]) == key && ResetsRunningTotal(ts[j])
    requires forall i :: j < i < |ts| && KeyOf(ts[i]) == key ==> !ResetsRunningTotal(ts[i])
    ensures RunningFor(ts, key) == TotalFor(ts[j + 1..], key)
  {
    var n := |ts| - 1;
    var init := ts[..n];
    if j == n {
      assert ts[j + 1..] == [];
    } else {
      assert forall i :: 0 <= i < |init| ==> init[i] == ts[i];
      RunningSinceLastReset(init, key, j);
      var tail := ts[j + 1..];
      assert tail[..|tail| - 1] == init[j + 1..];
      assert tail[|tail| - 1] == ts[n];
    }
  }
}
