/**
 * The JavaScript string built-ins that server.js relies on, over strings
 * modelled as sequences of characters: `trim`, `split` with a one-character
 * separator, `parseInt(s, 10)`, `padStart(2, '0')`, `slice(-k)` and
 * `String(n)` for a non-negative integer.
 */
module JsText {
  import opened Options

  predicate IsDigit(c: char) { '0' <= c <= '9' }

  /** Every character is a decimal digit (the class `\d` of a regular expression without the `u` flag). */
  predicate AllDigits(s: string) { forall i :: 0 <= i < |s| ==> IsDigit(s[i]) }

  /** The WhiteSpace and LineTerminator code points of ECMAScript, which `trim` and `parseInt` skip. */
  predicate IsJsWhiteSpace(c: char) {
    c == '\t' || c == '\n' || c == '\U{000B}' || c == '\U{000C}' || c == '\r' || c == ' '
    || c == '\U{00A0}' || c == '\U{1680}' || ('\U{2000}' <= c <= '\U{200A}')
    || c == '\U{2028}' || c == '\U{2029}' || c == '\U{202F}' || c == '\U{205F}'
    || c == '\U{3000}' || c == '\U{FEFF}'
  }

  predicate AllWhiteSpace(s: string) { forall i :: 0 <= i < |s| ==> IsJsWhiteSpace(s[i]) }

  // ---------------------------------------------------------------- trim

  /** The length of the white-space run that starts `s`. */
  function LeadingWhiteSpace(s: string): (n: nat)
    ensures n <= |s|
    ensures forall i :: 0 <= i < n ==> IsJsWhiteSpace(s[i])
    ensures n == |s| || !IsJsWhiteSpace(s[n])
  {
    if s != [] && IsJsWhiteSpace(s[0]) then 1 + LeadingWhiteSpace(s[1..]) else 0
  }

  /** The length of the white-space run that ends `s`. */
  function TrailingWhiteSpace(s: string): (n: nat)
    ensures n <= |s|
    ensures forall i :: |s| - n <= i < |s| ==> IsJsWhiteSpace(s[i])
    ensures n == |s| || !IsJsWhiteSpace(s[|s| - n - 1])
  {
    if s != [] && IsJsWhiteSpace(s[|s| - 1]) then 1 + TrailingWhiteSpace(s[..|s| - 1]) else 0
  }

  /** Drops the leading white space (the first step of `parseInt`). */
  function TrimStart(s: string): (r: string)
  {
    s[LeadingWhiteSpace(s)..]
  }

  /**
   * `String.prototype.trim`: what lies between the leading and the trailing
   * white-space runs, empty when `s` is all white space. The result neither
   * starts nor ends with white space.
   */
  function Trim(s: string): (r: string)
    ensures r == [] || (!IsJsWhiteSpace(r[0]) && !IsJsWhiteSpace(r[|r| - 1]))
  {
    var lead := LeadingWhiteSpace(s);
    if lead == |s| then []
    else
      var trail := TrailingWhiteSpace(s);
      assert trail < |s| - lead;
      s[lead..|s| - trail]
  }

  /** `s` is a white-space run, then its trim, then a white-space run. */
  lemma TrimSlice(s: string)
    ensures exists lead :: (0 <= lead <= |s| - |Trim(s)|
      && Trim(s) == s[lead..lead + |Trim(s)|]
      && AllWhiteSpace(s[..lead]) && AllWhiteSpace(s[lead + |Trim(s)|..]))
  {
    var lead := LeadingWhiteSpace(s);
    var r := Trim(s);
    if lead == |s| {
      assert r == s[lead..lead] && AllWhiteSpace(s[..lead]);
    } else {
      var trail := TrailingWhiteSpace(s);
      assert lead + |r| == |s| - trail;
      var tail := s[lead + |r|..];
      forall i | 0 <= i < |tail| ensures IsJsWhiteSpace(tail[i]) {
        assert tail[i] == s[|s| - trail + i];
      }
      assert AllWhiteSpace(s[..lead]);
    }
  }

  /** Trimming empties a string exactly when the string is all white space. */
  lemma TrimEmptyIffAllWhiteSpace(s: string)
    ensures Trim(s) == [] <==> AllWhiteSpace(s)
  {
    var lead := LeadingWhiteSpace(s);
    if lead < |s| {
      assert !IsJsWhiteSpace(s[lead]);
    }
  }

  /** A string that neither starts nor ends with white space is its own trim. */
  lemma TrimOfTrimmed(s: string)
    requires s == [] || (!IsJsWhiteSpace(s[0]) && !IsJsWhiteSpace(s[|s| - 1]))
    ensures Trim(s) == s
  {
  }

  lemma TrimIdempotent(s: string)
    ensures Trim(Trim(s)) == Trim(s)
  {
    TrimOfTrimmed(Trim(s));
  }

  // ---------------------------------------------------------------- split

  /** Glues pieces back together with one separator between neighbours. */
  function Join(parts: seq<string>, sep: char): string
    requires |parts| >= 1
  {
    if |parts| == 1 then parts[0] else parts[0] + [sep] + Join(parts[1..], sep)
  }

  /**
   * `String.prototype.split` with a one-character separator: at least one
   * piece, and no piece holds the separator; `SplitJoin` shows that joining
   * the pieces gives `s` back.
   */
  function Split(s: string, sep: char): (parts: seq<string>)
    ensures |parts| >= 1
    ensures forall i :: 0 <= i < |parts| ==> sep !in parts[i]
  {
    if s == [] then [[]]
    else
      var rest := Split(s[1..], sep);
      if s[0] == sep then [[]] + rest
      else [[s[0]] + rest[0]] + rest[1..]
  }

  lemma {:induction false} SplitJoin(s: string, sep: char)
    ensures Join(Split(s, sep), sep) == s
  {
    if s != [] {
      var rest := Split(s[1..], sep);
      SplitJoin(s[1..], sep);
      var parts := Split(s, sep);
      if s[0] == sep {
        assert parts[1..] == rest;
      } else {
        assert parts[1..] == rest[1..];
      }
      assert s == [s[0]] + s[1..];
    }
  }

  /** `split` leaves a string without the separator in one piece. */
  lemma SplitWithoutSeparator(s: string, sep: char)
    requires sep !in s
    ensures Split(s, sep) == [s]
  {
    var parts := Split(s, sep);
    SplitJoin(s, sep);
    if |parts| > 1 {
      assert false;
    }
  }

  /** `split` cuts at the first separator and goes on with the rest. */
  lemma {:induction false} SplitAtFirst(a: string, sep: char, b: string)
    requires sep !in a
    ensures Split(a + [sep] + b, sep) == [a] + Split(b, sep)
  {
    if a == [] {
      assert (a + [sep] + b)[1..] == b;
    } else {
      assert (a + [sep] + b)[1..] == a[1..] + [sep] + b;
      SplitAtFirst(a[1..], sep, b);
      assert [a[0]] + a[1..] == a;
    }
  }

  /** The first piece is the text before the first separator (or all of `s` when there is none). */
  lemma FirstPiece(s: string, sep: char)
    ensures var w := Split(s, sep)[0];
      |w| <= |s| && w == s[..|w|] && sep !in w && (|w| == |s| || s[|w|] == sep)
  {
    var parts := Split(s, sep);
    SplitJoin(s, sep);
    if |parts| > 1 {
      assert Join(parts, sep) == parts[0] + ([sep] + Join(parts[1..], sep));
    }
  }

  // ---------------------------------------------------------------- numbers

  /** The value of a string of decimal digits, most significant first. */
  function DecimalValue(ds: string): nat
    requires AllDigits(ds)
  {
    if ds == [] then 0
    else DecimalValue(ds[..|ds| - 1]) * 10 + (ds[|ds| - 1] as int - '0' as int)
  }

  /** The longest prefix of `s` made of decimal digits. */
  function DigitPrefix(s: string): (r: string)
    ensures r <= s && AllDigits(r)
    ensures |r| == |s| || !IsDigit(s[|r|])
  {
    if s != [] && IsDigit(s[0]) then [s[0]] + DigitPrefix(s[1..]) else []
  }

  /**
   * `parseInt(s, 10)`: skip leading white space, take one optional sign and the
   * longest run of digits after it; `None` stands for `NaN` (no digit there).
   */
  function ParseInt(s: string): (r: Option<int>)
    ensures r.None? <==> DigitPrefix(UnsignedPart(TrimStart(s))) == []
  {
    var t := TrimStart(s);
    var ds := DigitPrefix(UnsignedPart(t));
    if ds == [] then None
    else
      var v: int := DecimalValue(ds);
      if t[0] == '-' then Some(-v) else Some(v)
  }

  /** What follows one leading `+` or `-`, if there is one. */
  function UnsignedPart(t: string): (u: string)
    ensures t != [] && (t[0] == '+' || t[0] == '-') ==> u == t[1..]
    ensures !(t != [] && (t[0] == '+' || t[0] == '-')) ==> u == t
  {
    if t != [] && (t[0] == '+' || t[0] == '-') then t[1..] else t
  }

  /** A plain non-empty digit string parses to its decimal value. */
  lemma ParseIntOfDigits(ds: string)
    requires ds != [] && AllDigits(ds)
    ensures ParseInt(ds) == Some(DecimalValue(ds))
  {
    assert IsDigit(ds[0]);
    assert TrimStart(ds) == ds;
    assert UnsignedPart(ds) == ds;
    DigitPrefixOfDigits(ds);
  }

  /**
   * The value `parseInt` gives: leading white space, one optional sign, a
   * non-empty run of digits and anything that does not go on with a digit
   * parse to the signed value of the run. The trailing text is ignored, so
   * `"5x"`, `" 5"` and `"+5"` all give 5.
   */
  lemma ParseIntValue(w: string, sign: string, ds: string, junk: string)
    requires AllWhiteSpace(w)
    requires sign == "" || sign == "+" || sign == "-"
    requires ds != [] && AllDigits(ds)
    requires junk == [] || !IsDigit(junk[0])
    ensures ParseInt(w + sign + ds + junk) == Some(if sign == "-" then -(DecimalValue(ds) as int) else DecimalValue(ds))
  {
    var u := ds + junk;
    var body := sign + u;
    assert w + sign + ds + junk == w + body;
    assert IsDigit(u[0]);
    DigitPrefixOf(ds, junk);
    SignedBody(sign, u);
    TrimStartOf(w, body);
    ParseIntOfBody(w + body, body, ds);
  }

  lemma ParseIntOfBody(s: string, body: string, ds: string)
    requires TrimStart(s) == body && ds != [] && AllDigits(ds)
    requires DigitPrefix(UnsignedPart(body)) == ds
    ensures ParseInt(s) == Some(if body[0] == '-' then -(DecimalValue(ds) as int) else DecimalValue(ds))
  {
  }

  lemma SignedBody(sign: string, u: string)
    requires sign == "" || sign == "+" || sign == "-"
    requires u != [] && IsDigit(u[0])
    ensures var body := sign + u;
      body != [] && !IsJsWhiteSpace(body[0]) && UnsignedPart(body) == u && (body[0] == '-' <==> sign == "-")
  {
    if sign != "" {
      assert (sign + u)[1..] == u;
    }
  }

  /** Digits followed by text that does not go on with a digit parse to the digits' value. */
  lemma ParseIntOfDigitsThen(ds: string, junk: string)
    requires ds != [] && AllDigits(ds)
    requires junk == [] || !IsDigit(junk[0])
    ensures ParseInt(ds + junk) == Some(DecimalValue(ds) as int)
  {
    var u := ds + junk;
    assert IsDigit(u[0]) && u[0] != '-' && u[0] != '+';
    assert LeadingWhiteSpace(u) == 0;
    assert TrimStart(u) == u && UnsignedPart(u) == u;
    DigitPrefixOf(ds, junk);
    ParseIntOfBody(u, u, ds);
  }

  /** With no digit after the optional sign, `parseInt` gives `NaN`. */
  lemma ParseIntNaN(w: string, sign: string, rest: string)
    requires AllWhiteSpace(w)
    requires sign == "" || sign == "+" || sign == "-"
    requires rest == [] || (!IsDigit(rest[0]) && (sign != "" || (!IsJsWhiteSpace(rest[0]) && rest[0] != '+' && rest[0] != '-')))
    ensures ParseInt(w + sign + rest) == None
  {
    var body := sign + rest;
    assert w + sign + rest == w + body;
    if body == [] {
      TrimStartOf(w, body);
    } else {
      assert !IsJsWhiteSpace(body[0]);
      TrimStartOf(w, body);
      assert UnsignedPart(body) == rest;
    }
  }

  /** `TrimStart` removes exactly a leading white-space run. */
  lemma {:induction false} TrimStartOf(w: string, x: string)
    requires AllWhiteSpace(w)
    requires x == [] || !IsJsWhiteSpace(x[0])
    ensures TrimStart(w + x) == x
    ensures LeadingWhiteSpace(w + x) == |w|
  {
    if w != [] {
      assert (w + x)[1..] == w[1..] + x;
      TrimStartOf(w[1..], x);
    } else {
      assert w + x == x;
    }
  }

  /** The digit prefix stops where the digits stop. */
  lemma {:induction false} DigitPrefixOf(ds: string, junk: string)
    requires AllDigits(ds)
    requires junk == [] || !IsDigit(junk[0])
    ensures DigitPrefix(ds + junk) == ds
  {
    if ds != [] {
      assert (ds + junk)[1..] == ds[1..] + junk;
      DigitPrefixOf(ds[1..], junk);
    } else {
      assert ds + junk == junk;
    }
  }

  lemma {:induction false} DigitPrefixOfDigits(ds: string)
    requires AllDigits(ds)
    ensures DigitPrefix(ds) == ds
  {
    if ds != [] {
      DigitPrefixOfDigits(ds[1..]);
    }
  }

  function DigitChar(d: nat): (c: char)
    requires d < 10
    ensures IsDigit(c) && c as int - '0' as int == d
  {
    ('0' as int + d) as char
  }

  /**
   * `String(n)` for a non-negative integer: its decimal digits without leading
   * zeros, which read back as `n`.
   */
  function DecimalString(n: nat): (r: string)
    ensures r != [] && AllDigits(r) && DecimalValue(r) == n
    ensures n < 10 ==> |r| == 1
    ensures 10 <= n < 100 ==> |r| == 2
    ensures 100 <= n < 1000 ==> |r| == 3
    ensures 1000 <= n < 10000 ==> |r| == 4
  {
    if n < 10 then [DigitChar(n)]
    else
      var r := DecimalString(n / 10) + [DigitChar(n % 10)];
      assert r[..|r| - 1] == DecimalString(n / 10);
      r
  }

  /** `padStart(2, '0')`: zeros are put in front until the string is two long; longer strings stay as they are. */
  function PadStart2(s: string): (r: string)
    ensures |r| == if |s| < 2 then 2 else |s|
    ensures r[|r| - |s|..] == s
    ensures forall i :: 0 <= i < |r| - |s| ==> r[i] == '0'
  {
    if |s| >= 2 then s else if |s| == 1 then "0" + s else "00"
  }

  /** `slice(-k)` for `k > 0`: the last `k` characters, or the whole string when it is shorter. */
  function SliceFromEnd(s: string, k: nat): (r: string)
    requires k > 0
    ensures |r| == if |s| < k then |s| else k
    ensures r == s[|s| - |r|..]
  {
    if |s| < k then s else s[|s| - k..]
  }
}
