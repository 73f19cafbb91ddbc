/**
 * The mock account tables and their two lookups. Both lookups use the exact
 * composite key `"{disco}-{meter}"`. The DEFAULT consumption record holds two
 * dates that the process derives from the wall clock once, when the module is
 * loaded; that load-time clock reading is the parameter `clock`.
 */
module MockData {
  import opened Options
  import opened JsText

  datatype RechargeRecord = RechargeRecord(date: string, amount: string, token: string)

  /** `consumption` is the JavaScript number as `toString()` renders it. */
  datatype ConsumptionRecord = ConsumptionRecord(consumption: string, periodStart: string, periodEnd: string)

  datatype CalendarDate = CalendarDate(year: nat, month: nat, day: nat)

  predicate ValidDate(d: CalendarDate) { 1 <= d.month <= 12 && 1 <= d.day <= 31 }

  /** The two local dates the clock gave at load time: today, and the date 30 days before it. */
  datatype LoadClock = LoadClock(today: CalendarDate, thirtyDaysEarlier: CalendarDate)

  /** Day and month zero-padded to two digits, then the year: `DD/MM/YYYY`. */
  function DayMonthYear(d: CalendarDate): string
  {
    PadStart2(DecimalString(d.day)) + "/" + PadStart2(DecimalString(d.month)) + "/" + DecimalString(d.year)
  }

  const DefaultKey: string := "DEFAULT"

  /** The DEFAULT record: 150 kWh over the 30 days that end on the load date. */
  function DefaultConsumption(clock: LoadClock): ConsumptionRecord
  {
    ConsumptionRecord("150", DayMonthYear(clock.thirtyDaysEarlier), DayMonthYear(clock.today))
  }

  /** `MOCK_LAST_RECHARGE_DATA`. */
  const MockLastRechargeData: map<string, RechargeRecord> := map[
    "AEDC-04123456789" := RechargeRecord("25/04/2024", "\U{20A6}5,000.00", "1234-5678-9012-3456"),
    "IE-04101112233" := RechargeRecord("28/04/2024", "\U{20A6}2,500.00", "7890-1234-5678-9012")
  ]

  /** `MOCK_CONSUMPTION_PERIOD_DATA`, with its DEFAULT entry fixed by the load-time clock. */
  function MockConsumptionPeriodData(clock: LoadClock): map<string, ConsumptionRecord>
  {
    map[
      "AEDC-04123456789" := ConsumptionRecord("210.5", "01/04/2024", "30/04/2024"),
      "IE-04101112233" := ConsumptionRecord("175", "15/04/2024", "14/05/2024"),
      DefaultKey := DefaultConsumption(clock)
    ]
  }

  /** The tables a request is served from. */
  datatype MockTables = MockTables(lastRecharge: map<string, RechargeRecord>, consumption: map<string, ConsumptionRecord>)

  function SourceTables(clock: LoadClock): (t: MockTables)
    ensures DefaultKey in t.consumption
  {
    MockTables(MockLastRechargeData, MockConsumptionPeriodData(clock))
  }

  /** The composite key `"{disco}-{meter}"`. */
  function LookupKey(disco: string, meter: string): string
  {
    disco + "-" + meter
  }

  /** `getMockLastRecharge`: the entry under the key, or `None` (`null`) when there is none. */
  function GetMockLastRecharge(t: MockTables, meter: string, disco: string): (r: Option<RechargeRecord>)
    ensures r.None? <==> LookupKey(disco, meter) !in t.lastRecharge
    ensures r.Some? ==> r.value == t.lastRecharge[LookupKey(disco, meter)]
  {
    var key := LookupKey(disco, meter);
    if key in t.lastRecharge then Some(t.lastRecharge[key]) else None
  }

  /** `getMockConsumptionAndPeriod`: the entry under the key, or exactly the DEFAULT entry when there is none. */
  function GetMockConsumptionAndPeriod(t: MockTables, meter: string, disco: string): (r: ConsumptionRecord)
    requires DefaultKey in t.consumption
    ensures LookupKey(disco, meter) in t.consumption ==> r == t.consumption[LookupKey(disco, meter)]
    ensures LookupKey(disco, meter) !in t.consumption ==> r == t.consumption[DefaultKey]
  {
    var key := LookupKey(disco, meter);
    if key in t.consumption then t.consumption[key] else t.consumption[DefaultKey]
  }

  /** For codes without a `-`, the key determines both the code and the meter number. */
  lemma LookupKeyInjective(d1: string, m1: string, d2: string, m2: string)
    requires '-' !in d1 && '-' !in d2
    requires LookupKey(d1, m1) == LookupKey(d2, m2)
    ensures d1 == d2 && m1 == m2
  {
    var k := LookupKey(d1, m1);
    SplitAtFirst(d1, '-', m1);
    SplitAtFirst(d2, '-', m2);
    assert d1 == Split(k, '-')[0] == d2;
    assert m1 == k[|d1| + 1..] == m2;
  }

  /** Without that restriction the key is ambiguous: two different requests share one key. */
  lemma LookupKeyAmbiguousWithDash()
    ensures LookupKey("AEDC", "0412-3456789") == LookupKey("AEDC-0412", "3456789")
  {
    assert LookupKey("AEDC", "0412-3456789") == "AEDC-0412-3456789";
    assert LookupKey("AEDC-0412", "3456789") == "AEDC-0412-3456789";
  }

  /** No key built from a code and a meter number reaches the DEFAULT entry directly. */
  lemma LookupKeyIsNeverDefault(disco: string, meter: string)
    ensures LookupKey(disco, meter) != DefaultKey
  {
    assert '-' !in DefaultKey;
    assert LookupKey(disco, meter)[|disco|] == '-';
  }

  /** For dash-free codes, two keys agree exactly when their codes and numbers do. */
  lemma LookupKeyMatches(disco: string, meter: string, d0: string, m0: string)
    requires '-' !in disco && '-' !in d0
    ensures LookupKey(disco, meter) == LookupKey(d0, m0) <==> disco == d0 && meter == m0
  {
    if LookupKey(disco, meter) == LookupKey(d0, m0) {
      LookupKeyInjective(disco, meter, d0, m0);
    }
  }

  /** The two keys of the mock accounts. */
  lemma MockKeys()
    ensures LookupKey("AEDC", "04123456789") == "AEDC-04123456789"
    ensures LookupKey("IE", "04101112233") == "IE-04101112233"
  {
  }

  /**
   * On the source tables, the last-recharge lookup for a dash-free code finds
   * a record for exactly the two mock accounts.
   */
  lemma SourceLastRecharge(clock: LoadClock, meter: string, disco: string)
    requires '-' !in disco
    ensures GetMockLastRecharge(SourceTables(clock), meter, disco)
      == if disco == "AEDC" && meter == "04123456789" then Some(RechargeRecord("25/04/2024", "\U{20A6}5,000.00", "1234-5678-9012-3456"))
         else if disco == "IE" && meter == "04101112233" then Some(RechargeRecord("28/04/2024", "\U{20A6}2,500.00", "7890-1234-5678-9012"))
         else None
  {
    MockKeys();
    LookupKeyMatches(disco, meter, "AEDC", "04123456789");
    LookupKeyMatches(disco, meter, "IE", "04101112233");
  }

  /**
   * On the source tables, the consumption lookup for a dash-free code gives
   * the specific record of the two mock accounts and the DEFAULT record of
   * the load-time clock for every other account.
   */
  lemma SourceConsumption(clock: LoadClock, meter: string, disco: string)
    requires '-' !in disco
    ensures GetMockConsumptionAndPeriod(SourceTables(clock), meter, disco)
      == if disco == "AEDC" && meter == "04123456789" then ConsumptionRecord("210.5", "01/04/2024", "30/04/2024")
         else if disco == "IE" && meter == "04101112233" then ConsumptionRecord("175", "15/04/2024", "14/05/2024")
         else DefaultConsumption(clock)
  {
    MockKeys();
    LookupKeyIsNeverDefault(disco, meter);
    LookupKeyMatches(disco, meter, "AEDC", "04123456789");
    LookupKeyMatches(disco, meter, "IE", "04101112233");
  }

  /** The load-time dates in `DD/MM/YYYY`: two-digit day, two-digit month, four-digit year. */
  lemma DayMonthYearShape(d: CalendarDate)
    requires ValidDate(d) && 1000 <= d.year <= 9999
    ensures var s := DayMonthYear(d);
      |s| == 10 && s[2] == '/' && s[5] == '/'
      && AllDigits(s[..2]) && AllDigits(s[3..5]) && AllDigits(s[6..])
      && DecimalValue(s[..2]) == d.day && DecimalValue(s[3..5]) == d.month && DecimalValue(s[6..]) == d.year
  {
    var dd, mm, yy := PadStart2(DecimalString(d.day)), PadStart2(DecimalString(d.month)), DecimalString(d.year);
    PadKeepsValue(DecimalString(d.day));
    PadKeepsValue(DecimalString(d.month));
    SlashedParts(dd, mm, yy);
  }

  lemma SlashedParts(dd: string, mm: string, yy: string)
    requires |dd| == 2 && |mm| == 2 && |yy| == 4
    ensures var s := dd + "/" + mm + "/" + yy;
      |s| == 10 && s[2] == '/' && s[5] == '/' && s[..2] == dd && s[3..5] == mm && s[6..] == yy
  {
  }

  /** Padding a one- or two-digit string with zeros keeps its value. */
  lemma PadKeepsValue(ds: string)
    requires 1 <= |ds| <= 2 && AllDigits(ds)
    ensures AllDigits(PadStart2(ds)) && DecimalValue(PadStart2(ds)) == DecimalValue(ds)
  {
    if |ds| == 1 {
      var p := PadStart2(ds);
      assert p[..1] == "0";
      assert p[..1][..0] == [];
    }
  }
}
