/**
 * `formatDate`: normalises an ISO `YYYY-MM-DD` date to the `DD/MM/YYYY`
 * layout of the statement, passes a `D/M/YYYY` date through, and leaves
 * anything else as it is.
 */
module DateFormat {
  import opened Options
  import opened JsText
  import opened MockData

  /**
   * The test `^\d{1,2}\/\d{1,2}\/\d{4}$`, read through `split('/')`:
   * exactly three slash-separated groups of 1-2, 1-2 and 4 decimal digits.
   * `SlashDateIff` shows that this is the regular expression's language.
   */
  predicate SlashDate(s: string) {
    var g := Split(s, '/');
    |g| == 3
    && 1 <= |g[0]| <= 2 && AllDigits(g[0])
    && 1 <= |g[1]| <= 2 && AllDigits(g[1])
    && |g[2]| == 4 && AllDigits(g[2])
  }

  /** `parseInt(x, 10)` gives a number (not NaN) between `lo` and `hi`. */
  predicate ParsesWithin(x: string, lo: int, hi: int) {
    var n := ParseInt(x);
    n.Some? && lo <= n.value <= hi
  }

  /** The guard on the three pieces of `split('-')`: all non-empty, a four-character year, month 1..12, day 1..31. */
  predicate IsoParts(year: string, month: string, day: string) {
    year != [] && month != [] && day != [] && |year| == 4
    && ParsesWithin(month, 1, 12) && ParsesWithin(day, 1, 31)
  }

  /** The rewritten form `${pD}/${pM}/${year}`. */
  function Reordered(year: string, month: string, day: string): string {
    PadStart2(day) + "/" + PadStart2(month) + "/" + year
  }

  /**
   * `formatDate`. The empty string gives `N/A`; a rewrite only ever happens
   * to a string holding a `-`, so every string without one comes back
   * unchanged. The `try`/`catch` cannot fire on a string argument.
   */
  function FormatDate(s: string): (r: string)
    ensures r != []
    ensures s == [] ==> r == "N/A"
    ensures s != [] && '-' !in s ==> r == s
  {
    if s == [] then "N/A"
    else if SlashDate(s) then s
    else
      var parts := Split(s, '-');
      if |parts| == 3 && IsoParts(parts[0], parts[1], parts[2]) then
        OnePieceWithoutDash(s);
        Reordered(parts[0], parts[1], parts[2])
      else s
  }

  // ------------------------------------------------------------ helpers

  lemma OnePieceWithoutDash(s: string)
    ensures '-' !in s ==> |Split(s, '-')| == 1
  {
    if '-' !in s {
      SplitWithoutSeparator(s, '-');
    }
  }

  lemma NoSeparatorInDigits(ds: string, c: char)
    requires AllDigits(ds) && !IsDigit(c)
    ensures c !in ds
  {
    assert forall i :: 0 <= i < |ds| ==> ds[i] != c;
  }

  lemma PadKeepsOut(s: string, c: char)
    requires c !in s && c != '0'
    ensures c !in PadStart2(s)
  {
    var r := PadStart2(s);
    if |s| == 1 {
      assert r == ['0'] + s;
    }
  }

  lemma ThreePieces(a: string, b: string, c: string, sep: char)
    requires sep !in a && sep !in b && sep !in c
    ensures Split(a + [sep] + b + [sep] + c, sep) == [a, b, c]
  {
    assert a + [sep] + b + [sep] + c == a + [sep] + (b + [sep] + c);
    SplitAtFirst(a, sep, b + [sep] + c);
    SplitAtFirst(b, sep, c);
    SplitWithoutSeparator(c, sep);
  }

  lemma JoinThree(s: string, sep: char)
    requires |Split(s, sep)| == 3
    ensures var g := Split(s, sep); s == g[0] + [sep] + g[1] + [sep] + g[2]
  {
    var g := Split(s, sep);
    SplitJoin(s, sep);
    assert Join(g[1..][1..], sep) == g[2];
    assert Join(g[1..], sep) == g[1] + [sep] + g[2];
    assert Join(g, sep) == g[0] + [sep] + (g[1] + [sep] + g[2]);
  }

  // ------------------------------------------------------------ the pass-through pattern

  /** A slash date is exactly `d/m/y` with 1-2, 1-2 and 4 digits: both directions. */
  lemma SlashDateIff(s: string)
    ensures SlashDate(s) <==> exists d, m, y :: s == d + "/" + m + "/" + y && DigitGroups(d, m, y)
  {
    if SlashDate(s) {
      var g := Split(s, '/');
      JoinThree(s, '/');
      assert s == g[0] + "/" + g[1] + "/" + g[2] && DigitGroups(g[0], g[1], g[2]);
    }
    if exists d, m, y :: s == d + "/" + m + "/" + y && DigitGroups(d, m, y) {
      var d, m, y :| s == d + "/" + m + "/" + y && DigitGroups(d, m, y);
      SlashDateOf(d, m, y);
    }
  }

  /** The three digit groups the pass-through pattern asks for. */
  predicate DigitGroups(d: string, m: string, y: string) {
    1 <= |d| <= 2 && AllDigits(d) && 1 <= |m| <= 2 && AllDigits(m) && |y| == 4 && AllDigits(y)
  }

  lemma SlashDateOf(d: string, m: string, y: string)
    requires DigitGroups(d, m, y)
    ensures SlashDate(d + "/" + m + "/" + y)
  {
    NoSeparatorInDigits(d, '/');
    NoSeparatorInDigits(m, '/');
    NoSeparatorInDigits(y, '/');
    ThreePieces(d, m, y, '/');
  }

  /** A slash date holds no `-`. */
  lemma SlashDateHasNoDash(s: string)
    requires SlashDate(s)
    ensures '-' !in s
  {
    var g := Split(s, '/');
    JoinThree(s, '/');
    NoSeparatorInDigits(g[0], '-');
    NoSeparatorInDigits(g[1], '-');
    NoSeparatorInDigits(g[2], '-');
  }

  // ------------------------------------------------------------ the three branches

  /** A `d/m/yyyy` date is returned as it is. */
  lemma FormatSlashDate(d: string, m: string, y: string)
    requires DigitGroups(d, m, y)
    ensures FormatDate(d + "/" + m + "/" + y) == d + "/" + m + "/" + y
  {
    SlashDateOf(d, m, y);
  }

  /** `year-month-day` passing the guard becomes `pad2(day)/pad2(month)/year`. */
  lemma FormatIsoDate(year: string, month: string, day: string)
    requires '-' !in year && '-' !in month && '-' !in day
    requires IsoParts(year, month, day)
    ensures FormatDate(year + "-" + month + "-" + day) == Reordered(year, month, day)
  {
    var s := year + "-" + month + "-" + day;
    ThreePieces(year, month, day, '-');
    DashAfterYear(year, month, day);
    DashBlocksPassThrough(s, |year|);
  }

  lemma DashAfterYear(year: string, month: string, day: string)
    ensures |year| < |year + "-" + month + "-" + day| && (year + "-" + month + "-" + day)[|year|] == '-'
  {
  }

  /** A string holding a `-` is never a slash date. */
  lemma DashBlocksPassThrough(s: string, i: int)
    requires 0 <= i < |s| && s[i] == '-'
    ensures !SlashDate(s)
  {
    if SlashDate(s) {
      SlashDateHasNoDash(s);
      assert false;
    }
  }

  /**
   * Every other input comes back unchanged: a result that differs from the
   * input is either `N/A` for the empty string, or the reordering of a
   * three-piece dashed date that passes the guard.
   */
  lemma FormatDateChanges(s: string)
    requires FormatDate(s) != s
    ensures (s == [] && FormatDate(s) == "N/A")
         || exists year, month, day ::
              s == year + "-" + month + "-" + day
              && '-' !in year && '-' !in month && '-' !in day
              && IsoParts(year, month, day)
              && FormatDate(s) == Reordered(year, month, day)
  {
    if s != [] {
      var g := Split(s, '-');
      JoinThree(s, '-');
      assert s == g[0] + "-" + g[1] + "-" + g[2];
    }
  }

  /** The reordered form never holds a `-` when its pieces do not. */
  lemma ReorderedHasNoDash(year: string, month: string, day: string)
    requires '-' !in year && '-' !in month && '-' !in day
    ensures '-' !in Reordered(year, month, day)
  {
    PadKeepsOut(day, '-');
    PadKeepsOut(month, '-');
  }

  /** `formatDate` is idempotent. */
  lemma FormatDateIdempotent(s: string)
    ensures FormatDate(FormatDate(s)) == FormatDate(s)
  {
    var r := FormatDate(s);
    if s != [] && !SlashDate(s) {
      var g := Split(s, '-');
      if |g| == 3 && IsoParts(g[0], g[1], g[2]) {
        ReorderedHasNoDash(g[0], g[1], g[2]);
      }
    }
  }

  /**
   * An all-digit ISO date with a four-digit year and one- or two-digit
   * month and day is turned into a slash date, which is then left alone.
   */
  lemma IsoDigitsBecomeSlashDate(year: string, month: string, day: string)
    requires DigitGroups(day, month, year)
    requires 1 <= DecimalValue(month) <= 12 && 1 <= DecimalValue(day) <= 31
    ensures var r := FormatDate(year + "-" + month + "-" + day);
      r == PadStart2(day) + "/" + PadStart2(month) + "/" + year && |r| == 10 && SlashDate(r)
  {
    ParseIntOfDigits(month);
    ParseIntOfDigits(day);
    NoSeparatorInDigits(year, '-');
    NoSeparatorInDigits(month, '-');
    NoSeparatorInDigits(day, '-');
    FormatIsoDate(year, month, day);
    PadIsDigits(day);
    PadIsDigits(month);
    SlashDateOf(PadStart2(day), PadStart2(month), year);
  }

  /**
   * The guard reads the month and the day with `parseInt`, which stops at
   * the first non-digit, so pieces such as `5x` pass it: text after the
   * digits is ignored by the range test and kept by the rewrite.
   */
  lemma FormatIsoDateWithTrailingText(year: string, month: string, mjunk: string, day: string, djunk: string)
    requires |year| == 4 && '-' !in year && '-' !in mjunk && '-' !in djunk
    requires month != [] && AllDigits(month) && 1 <= DecimalValue(month) <= 12
    requires day != [] && AllDigits(day) && 1 <= DecimalValue(day) <= 31
    requires mjunk == [] || !IsDigit(mjunk[0])
    requires djunk == [] || !IsDigit(djunk[0])
    ensures FormatDate(year + "-" + (month + mjunk) + "-" + (day + djunk)) == Reordered(year, month + mjunk, day + djunk)
  {
    var m, d := month + mjunk, day + djunk;
    DigitsThenText(month, mjunk);
    DigitsThenText(day, djunk);
    assert IsoParts(year, m, d);
    FormatIsoDate(year, m, d);
  }

  lemma DigitsThenText(ds: string, junk: string)
    requires ds != [] && AllDigits(ds) && '-' !in junk
    requires junk == [] || !IsDigit(junk[0])
    ensures ParseInt(ds + junk) == Some(DecimalValue(ds) as int) && '-' !in ds + junk && ds + junk != []
  {
    ParseIntOfDigitsThen(ds, junk);
    NoSeparatorInDigits(ds, '-');
  }

  lemma PadIsDigits(s: string)
    requires 1 <= |s| <= 2 && AllDigits(s)
    ensures |PadStart2(s)| == 2 && AllDigits(PadStart2(s))
  {
    if |s| == 1 {
      assert PadStart2(s) == ['0'] + s;
    }
  }

  /**
   * The DEFAULT record's load-time dates need no normalising: each is a
   * slash date, so `formatDate` returns it unchanged (for four-digit years).
   */
  lemma LoadDateIsFixedPoint(d: CalendarDate)
    requires ValidDate(d) && 1000 <= d.year <= 9999
    ensures SlashDate(DayMonthYear(d)) && FormatDate(DayMonthYear(d)) == DayMonthYear(d)
  {
    var ds, ms, yy := DecimalString(d.day), DecimalString(d.month), DecimalString(d.year);
    PadKeepsValue(ds);
    PadKeepsValue(ms);
    var dd, mm := PadStart2(ds), PadStart2(ms);
    assert DayMonthYear(d) == dd + "/" + mm + "/" + yy;
    SlashDateOf(dd, mm, yy);
    FormatSlashDate(dd, mm, yy);
  }
}
