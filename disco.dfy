/**
 * The two static reference tables of the distribution companies (DISCOs):
 * the valid leading digits of each company's meter numbers, and each
 * company's display record.
 */
module Disco {
  import opened JsText

  /** One entry of `DISCO_INFO`; `logo` is declared there but never drawn. */
  datatype DiscoRecord = DiscoRecord(name: string, address: string, logo: string)

  /** `DISCO_PREFIXES`: company code to the ordered list of meter-number prefixes. */
  const DiscoPrefixes: map<string, seq<string>> := map[
    "AEDC" := ["0401", "0402", "0403", "04123"],
    "IE" := ["0410", "0411", "0412"],
    "EKEDC" := ["0415", "0416"],
    "EEDC" := ["0420", "0421"],
    "BEDC" := ["0430", "0431"],
    "KEDCO" := ["0440", "0441"],
    "JED" := ["0450", "0451"],
    "PHED" := ["0460", "0461"],
    "KAEDCO" := ["0470", "0471"],
    "YEDC" := ["0480", "0481"],
    "IBEDC" := ["0490", "0491", "0492"]
  ]

  /** `DISCO_INFO`: company code to its display name, address and logo file. */
  const DiscoInfo: map<string, DiscoRecord> := map[
    "AEDC" := DiscoRecord("Abuja Electricity Distribution Company", "No. 1 Ziguinchor Street, Wuse Zone 4, Abuja", "aedc_logo.png"),
    "IE" := DiscoRecord("Ikeja Electric Plc", "Oba Akran Avenue, Ikeja, Lagos", "ie_logo.png"),
    "EKEDC" := DiscoRecord("Eko Electricity Distribution Company", "24/25 Marina Road, Lagos Island, Lagos", "ekedc_logo.png"),
    "EEDC" := DiscoRecord("Enugu Electricity Distribution Company", "Plot 1 Okpara Avenue, Enugu", "eedc_logo.png"),
    "BEDC" := DiscoRecord("Benin Electricity Distribution Company", "No. 5, Akpakpava Street, Benin City", "bedc_logo.png"),
    "KEDCO" := DiscoRecord("Kano Electricity Distribution Company", "No. 1 Niger Street, Kano", "kedco_logo.png"),
    "JED" := DiscoRecord("Jos Electricity Distribution Company", "No. 9 Ahmadu Bello Way, Jos", "jed_logo.png"),
    "PHED" := DiscoRecord("Port Harcourt Electricity Distribution Company", "Moscow Road, Port Harcourt", "phed_logo.png"),
    "KAEDCO" := DiscoRecord("Kaduna Electricity Distribution Company", "No. 1-2 Ahmadu Bello Way, Kaduna", "kaedco_logo.png"),
    "YEDC" := DiscoRecord("Yola Electricity Distribution Company", "No. 2 Atiku Abubakar Way, Yola", "yedc_logo.png"),
    "IBEDC" := DiscoRecord("Ibadan Electricity Distribution Company", "Capital Building, Ring Road, Ibadan", "ibedc_logo.png")
  ]

  predicate IsUpperLetter(c: char) { 'A' <= c <= 'Z' }

  /** Both tables list the same companies. */
  lemma TablesShareCodes()
    ensures DiscoInfo.Keys == DiscoPrefixes.Keys
  {
  }

  /** Every company has at least one prefix, and every prefix is four or five digits. */
  lemma PrefixesWellFormed()
    ensures forall code :: code in DiscoPrefixes ==>
      |DiscoPrefixes[code]| > 0
      && forall i :: 0 <= i < |DiscoPrefixes[code]| ==>
           4 <= |DiscoPrefixes[code][i]| <= 5 && AllDigits(DiscoPrefixes[code][i])
  {
    forall code | code in DiscoPrefixes
      ensures |DiscoPrefixes[code]| > 0
      ensures forall i :: 0 <= i < |DiscoPrefixes[code]| ==>
        4 <= |DiscoPrefixes[code][i]| <= 5 && AllDigits(DiscoPrefixes[code][i])
    {
      assert code in {"AEDC", "IE", "EKEDC", "EEDC", "BEDC", "KEDCO", "JED", "PHED", "KAEDCO", "YEDC", "IBEDC"};
    }
  }

  predicate AllUpperLetters(code: string) { forall i :: 0 <= i < |code| ==> IsUpperLetter(code[i]) }

  /** Every company code is a non-empty run of upper-case letters (so it holds no `-`, `_` or quote). */
  lemma CodesAreUpperCase()
    ensures forall code :: code in DiscoInfo ==> code != [] && AllUpperLetters(code)
  {
    forall code | code in DiscoPrefixes
      ensures code != [] && AllUpperLetters(code)
    {
      assert code in {"AEDC", "IE", "EKEDC", "EEDC", "BEDC", "KEDCO", "JED", "PHED", "KAEDCO", "YEDC", "IBEDC"};
    }
    TablesShareCodes();
  }
}
