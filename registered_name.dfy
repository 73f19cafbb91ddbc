/**
 * `getMeterRegisteredName`: a placeholder account holder name built from the
 * first word of the company's display name and the end of the meter number.
 */
module RegisteredName {
  import opened Options
  import opened JsText
  import opened Disco

  /** `DISCO_INFO[code].name`, or the code itself for an unknown company. */
  function DisplayName(disco: string): (n: string)
    ensures disco in DiscoInfo ==> n == DiscoInfo[disco].name
    ensures disco !in DiscoInfo ==> n == disco
  {
    if disco in DiscoInfo then DiscoInfo[disco].name else disco
  }

  /** `name.split(" ")[0]`: the text before the first space, or all of it when there is none. */
  function FirstWord(name: string): (w: string)
    ensures |w| <= |name| && w == name[..|w|] && ' ' !in w
    ensures |w| == |name| || name[|w|] == ' '
  {
    FirstPiece(name, ' ');
    Split(name, ' ')[0]
  }

  /** The last four characters of the meter number (all of a shorter one), or `XXXX` for an empty one. */
  function MeterTail(meter: string): (t: string)
    ensures meter == [] ==> t == "XXXX"
    ensures meter != [] ==> |t| == (if |meter| < 4 then |meter| else 4) && t == meter[|meter| - |t|..]
  {
    if meter == [] then "XXXX" else SliceFromEnd(meter, 4)
  }

  /** The name `Customer (<first word of the company name> - <tail of the meter number>)`. */
  function NameFor(companyName: string, meter: string): string
  {
    "Customer (" + FirstWord(companyName) + " - " + MeterTail(meter) + ")"
  }

  /** `getMeterRegisteredName`: the name built from the company's display name. */
  function MeterRegisteredName(meter: string, disco: string): string
  {
    NameFor(DisplayName(disco), meter)
  }

  /**
   * Reads a registered name back into its first word and its tail: the word
   * runs to the first space, which must open ` - `, and the tail runs to the
   * closing parenthesis.
   */
  function ParseRegisteredName(r: string): Option<(string, string)>
  {
    if |r| >= 11 && r[..10] == "Customer (" && r[|r| - 1] == ')' then
      var inner := r[10..|r| - 1];
      var w := Split(inner, ' ')[0];
      FirstPiece(inner, ' ');
      var rest := inner[|w|..];
      if |rest| >= 3 && rest[..3] == " - " then Some((w, rest[3..])) else None
    else None
  }

  /** Where the pieces of a registered name sit. */
  lemma NameLayout(w: string, t: string)
    ensures var r := "Customer (" + w + " - " + t + ")";
      |r| >= 11 && r[..10] == "Customer (" && r[|r| - 1] == ')' && r[10..|r| - 1] == w + " - " + t
  {
  }

  /** A registered name determines the word and the tail it was built from. */
  lemma ParseNameFor(companyName: string, meter: string)
    ensures ParseRegisteredName(NameFor(companyName, meter))
      == Some((FirstWord(companyName), MeterTail(meter)))
  {
    ParseLayout(FirstWord(companyName), MeterTail(meter));
  }

  lemma ParseLayout(w: string, t: string)
    requires ' ' !in w
    ensures ParseRegisteredName("Customer (" + w + " - " + t + ")") == Some((w, t))
  {
    NameLayout(w, t);
    SplitInner(w, t);
    RestParts(t);
  }

  lemma SplitInner(w: string, t: string)
    requires ' ' !in w
    ensures var inner := w + " - " + t;
      Split(inner, ' ')[0] == w && inner[|w|..] == " - " + t
  {
    var inner := w + " - " + t;
    assert inner == w + [' '] + ("- " + t);
    SplitAtFirst(w, ' ', "- " + t);
  }

  lemma RestParts(t: string)
    ensures var rest := " - " + t; |rest| >= 3 && rest[..3] == " - " && rest[3..] == t
  {
  }

  lemma NameForParts(companyName: string, meter: string, w: string, t: string)
    requires FirstWord(companyName) == w && MeterTail(meter) == t
    ensures NameFor(companyName, meter) == "Customer (" + w + " - " + t + ")"
  {
  }

  /**
   * `getMeterRegisteredName` loses nothing it uses: the name reads back as the
   * first word of the company's display name (of the code itself when it is
   * unknown) and the meter number's tail.
   */
  lemma ParseMeterRegisteredName(meter: string, disco: string)
    ensures ParseRegisteredName(MeterRegisteredName(meter, disco))
      == Some((FirstWord(DisplayName(disco)), MeterTail(meter)))
  {
    ParseNameFor(DisplayName(disco), meter);
  }

  /** The first word of `w + " " + rest` is `w` when `w` has no space. */
  lemma FirstWordBeforeSpace(w: string, rest: string)
    requires ' ' !in w
    ensures FirstWord(w + " " + rest) == w
  {
    assert w + " " + rest == w + [' '] + rest;
    SplitAtFirst(w, ' ', rest);
  }

  /** A name without a space is its own first word. */
  lemma FirstWordWithoutSpace(name: string)
    requires ' ' !in name
    ensures FirstWord(name) == name
  {
    SplitWithoutSeparator(name, ' ');
  }

  /**
   * A known company contributes the first word of its display name (for AEDC,
   * `Abuja Electricity Distribution Company`, that is `Abuja`).
   */
  lemma MeterRegisteredNameOfKnownCode(meter: string, disco: string, w: string, rest: string)
    requires disco in DiscoInfo && DiscoInfo[disco].name == w + " " + rest && ' ' !in w
    ensures MeterRegisteredName(meter, disco) == "Customer (" + w + " - " + MeterTail(meter) + ")"
  {
    FirstWordBeforeSpace(w, rest);
  }

  /** An unknown code without a space stands in whole for the company's first word. */
  lemma MeterRegisteredNameOfUnknownCode(meter: string, disco: string)
    requires disco !in DiscoInfo && ' ' !in disco
    ensures MeterRegisteredName(meter, disco) == "Customer (" + disco + " - " + MeterTail(meter) + ")"
  {
    FirstWordWithoutSpace(disco);
  }
}
