/**
 * The validation and lookup prefix of the `POST /generate-bill` handler:
 * the body fields are trimmed, three checks run in a fixed order, and only
 * a request that passes all three reaches the mock lookups and the
 * attachment name of the statement document.
 */
module BillHandler {
  import opened Options
  import opened JsText
  import opened Disco
  import opened MockData
  import opened MeterValidator
  import opened RegisteredName

  /** What an accepted request goes on to the document with: the trimmed form values, the registered name, the two lookups and the attachment name. */
  datatype Statement = Statement(
    fullName: string,
    address: string,
    meterNumber: string,
    disco: string,
    registeredName: string,
    lastRecharge: Option<RechargeRecord>,
    consumption: ConsumptionRecord,
    filename: string)

  /** A 400 response with its JSON `error` text, or a request that goes on to the PDF. */
  datatype Outcome = Rejected(error: string) | Accepted(statement: Statement)

  const RequiredMessage: string := "Full Name, Address, Meter Number and DISCO selection are required."
  const InvalidDiscoMessage: string := "Invalid DISCO selection or configuration."

  const MeterMessageHead: string := "Invalid or unrecognized Meter Number for "
  const MeterMessageTail: string := ". Please check the number and try again."

  /** The third rejection's text, naming the company. */
  function InvalidMeterMessage(discoName: string): string
  {
    MeterMessageHead + discoName + MeterMessageTail
  }

  /** The meter message holds the company name right after its fixed opening. */
  lemma MeterMessageNamesCompany(discoName: string)
    ensures var m := InvalidMeterMessage(discoName);
      |MeterMessageHead| + |discoName| <= |m| && m[|MeterMessageHead|..|MeterMessageHead| + |discoName|] == discoName
  {
  }

  /** The `Content-Disposition` file name. */
  function AttachmentFilename(disco: string, meter: string): string {
    "utility_statement_" + disco + "_" + meter + ".pdf"
  }

  /** A body field that is a string is trimmed; an absent one stays absent. */
  function TrimField(f: Option<string>): Option<string> {
    if f.Some? then Some(Trim(f.value)) else None
  }

  /** A field is truthy: present and not the empty string. */
  predicate Present(f: Option<string>) { f.Some? && f.value != [] }

  /** The statement of a request that passed every check: the lookups run only here. */
  function StatementFor(t: MockTables, name: string, addr: string, m: string, disco: string): Statement
    requires DefaultKey in t.consumption
  {
    Statement(name, addr, m, disco,
      MeterRegisteredName(m, disco),
      GetMockLastRecharge(t, m, disco),
      GetMockConsumptionAndPeriod(t, m, disco),
      AttachmentFilename(disco, m))
  }

  /**
   * The decision of the handler. `selectedDisco` is not trimmed. The
   * company name in the meter message comes from `DISCO_INFO`; its fallback
   * to the raw code cannot be reached, because the DISCO check before it
   * already rejected every code missing from `DISCO_INFO`.
   */
  function Decide(t: MockTables, fullName: Option<string>, address: Option<string>,
                  meterNumber: Option<string>, selectedDisco: Option<string>): Outcome
    requires DefaultKey in t.consumption
  {
    var name, addr, meter := TrimField(fullName), TrimField(address), TrimField(meterNumber);
    if !Present(name) || !Present(addr) || !Present(meter) || !Present(selectedDisco) then
      Rejected(RequiredMessage)
    else
      var disco, m := selectedDisco.value, meter.value;
      if disco !in DiscoInfo || disco !in DiscoPrefixes then
        Rejected(InvalidDiscoMessage)
      else if !MeterNumberValid(m, disco) then
        Rejected(InvalidMeterMessage(DiscoInfo[disco].name))
      else
        Accepted(StatementFor(t, name.value, addr.value, m, disco))
  }

  /**
   * The handler body step by step: it reassigns the three string fields
   * to their trimmed values, returns at the first failing check and calls
   * the imperative validator.
   */
  method HandleGenerateBill(t: MockTables, fullName: Option<string>, address: Option<string>,
                            meterNumber: Option<string>, selectedDisco: Option<string>) returns (o: Outcome)
    requires DefaultKey in t.consumption
    ensures o == Decide(t, fullName, address, meterNumber, selectedDisco)
  {
    var meter, name, addr := meterNumber, fullName, address;
    if meter.Some? { meter := Some(Trim(meter.value)); }
    if name.Some? { name := Some(Trim(name.value)); }
    if addr.Some? { addr := Some(Trim(addr.value)); }
    if !Present(name) || !Present(addr) || !Present(meter) || !Present(selectedDisco) {
      return Rejected(RequiredMessage);
    }
    var disco := selectedDisco.value;
    if disco !in DiscoInfo || disco !in DiscoPrefixes {
      return Rejected(InvalidDiscoMessage);
    }
    var ok := VerifyMeterNumber(meter.value, disco);
    if !ok {
      var discoName := if disco in DiscoInfo then DiscoInfo[disco].name else disco;
      return Rejected(InvalidMeterMessage(discoName));
    }
    o := Accepted(StatementFor(t, name.value, addr.value, meter.value, disco));
  }

  // ------------------------------------------------------------ the order of the checks

  /** A field the first check finds missing: absent, or (after trimming) empty. */
  predicate Blank(f: Option<string>) { f.None? || AllWhiteSpace(f.value) }

  /** Some required field is missing; the DISCO code counts as missing only when absent or exactly empty. */
  predicate AnyBlank(fullName: Option<string>, address: Option<string>,
                     meterNumber: Option<string>, selectedDisco: Option<string>) {
    Blank(fullName) || Blank(address) || Blank(meterNumber) || !Present(selectedDisco)
  }

  lemma TrimFieldPresent(f: Option<string>)
    ensures Present(TrimField(f)) <==> !Blank(f)
  {
    if f.Some? {
      TrimEmptyIffAllWhiteSpace(f.value);
    }
  }

  lemma MessagesDiffer(discoName: string)
    ensures RequiredMessage != InvalidDiscoMessage
    ensures InvalidMeterMessage(discoName) != RequiredMessage
    ensures InvalidMeterMessage(discoName) != InvalidDiscoMessage
  {
    assert |RequiredMessage| == 66 && |InvalidDiscoMessage| == 41;
    assert |InvalidMeterMessage(discoName)| >= 81;
  }

  /** Check 1: the "required" rejection happens exactly when a required field is missing. */
  lemma RequiredFirst(t: MockTables, fullName: Option<string>, address: Option<string>,
                      meterNumber: Option<string>, selectedDisco: Option<string>)
    requires DefaultKey in t.consumption
    ensures Decide(t, fullName, address, meterNumber, selectedDisco) == Rejected(RequiredMessage)
        <==> AnyBlank(fullName, address, meterNumber, selectedDisco)
  {
    TrimFieldPresent(fullName);
    TrimFieldPresent(address);
    TrimFieldPresent(meterNumber);
    if !AnyBlank(fullName, address, meterNumber, selectedDisco) && selectedDisco.value in DiscoInfo {
      MessagesDiffer(DiscoInfo[selectedDisco.value].name);
    } else {
      MessagesDiffer("");
    }
  }

  /** Check 2: with every field there, the DISCO rejection happens exactly for a code missing from the tables. */
  lemma InvalidDiscoSecond(t: MockTables, fullName: Option<string>, address: Option<string>,
                           meterNumber: Option<string>, selectedDisco: Option<string>)
    requires DefaultKey in t.consumption
    requires !AnyBlank(fullName, address, meterNumber, selectedDisco)
    ensures Decide(t, fullName, address, meterNumber, selectedDisco) == Rejected(InvalidDiscoMessage)
        <==> selectedDisco.value !in DiscoInfo
  {
    TrimFieldPresent(fullName);
    TrimFieldPresent(address);
    TrimFieldPresent(meterNumber);
    TablesShareCodes();
    if selectedDisco.value in DiscoInfo {
      MessagesDiffer(DiscoInfo[selectedDisco.value].name);
    }
  }

  /** Check 3: with every field there and a known code, the meter rejection, naming the company, happens exactly for a failing meter number. */
  lemma InvalidMeterThird(t: MockTables, fullName: Option<string>, address: Option<string>,
                          meterNumber: Option<string>, selectedDisco: Option<string>)
    requires DefaultKey in t.consumption
    requires !AnyBlank(fullName, address, meterNumber, selectedDisco) && selectedDisco.value in DiscoInfo
    ensures Decide(t, fullName, address, meterNumber, selectedDisco)
        == Rejected(InvalidMeterMessage(DiscoInfo[selectedDisco.value].name))
        <==> !MeterNumberValid(Trim(meterNumber.value), selectedDisco.value)
  {
    TrimFieldPresent(fullName);
    TrimFieldPresent(address);
    TrimFieldPresent(meterNumber);
    TablesShareCodes();
  }

  /**
   * A request is accepted exactly when it passes all three checks, and the
   * statement then carries the trimmed values, the code, the
   * registered name, both lookups under the composite key, and the
   * attachment name.
   */
  lemma AcceptedIffValid(t: MockTables, fullName: Option<string>, address: Option<string>,
                         meterNumber: Option<string>, selectedDisco: Option<string>)
    requires DefaultKey in t.consumption
    ensures Decide(t, fullName, address, meterNumber, selectedDisco).Accepted?
        <==> !AnyBlank(fullName, address, meterNumber, selectedDisco)
             && selectedDisco.value in DiscoInfo
             && MeterNumberValid(Trim(meterNumber.value), selectedDisco.value)
    ensures Decide(t, fullName, address, meterNumber, selectedDisco).Accepted? ==>
      var s := Decide(t, fullName, address, meterNumber, selectedDisco).statement;
      var disco, m := selectedDisco.value, Trim(meterNumber.value);
      s.fullName == Trim(fullName.value) && s.address == Trim(address.value)
      && s.meterNumber == m && s.disco == disco
      && s.registeredName == MeterRegisteredName(m, disco)
      && s.lastRecharge == (if LookupKey(disco, m) in t.lastRecharge then Some(t.lastRecharge[LookupKey(disco, m)]) else None)
      && s.consumption == (if LookupKey(disco, m) in t.consumption then t.consumption[LookupKey(disco, m)] else t.consumption[DefaultKey])
      && s.filename == "utility_statement_" + disco + "_" + m + ".pdf"
  {
    TrimFieldPresent(fullName);
    TrimFieldPresent(address);
    TrimFieldPresent(meterNumber);
    TablesShareCodes();
  }

  /**
   * No lookup on a 400: every rejection is the same whatever the mock
   * tables hold, so the tables cannot have been consulted.
   */
  lemma RejectionIgnoresTables(t1: MockTables, t2: MockTables, fullName: Option<string>, address: Option<string>,
                               meterNumber: Option<string>, selectedDisco: Option<string>)
    requires DefaultKey in t1.consumption && DefaultKey in t2.consumption
    requires Decide(t1, fullName, address, meterNumber, selectedDisco).Rejected?
    ensures Decide(t2, fullName, address, meterNumber, selectedDisco) == Decide(t1, fullName, address, meterNumber, selectedDisco)
  {
  }

  // ------------------------------------------------------------ what an accepted statement holds

  predicate FilenameChar(c: char) {
    'A' <= c <= 'Z' || 'a' <= c <= 'z' || IsDigit(c) || c == '_' || c == '.'
  }

  lemma AllFilenameChars(s: string)
    requires forall i :: 0 <= i < |s| ==> FilenameChar(s[i])
    ensures '"' !in s && '/' !in s && ' ' !in s
  {
    assert forall i :: 0 <= i < |s| ==> s[i] != '"' && s[i] != '/' && s[i] != ' ';
  }

  /**
   * The attachment name of an accepted request is made of letters, digits,
   * `_` and `.` only, so it can hold no quote that would end the quoted
   * `filename="…"` header value, no path separator and no space.
   */
  lemma AcceptedFilenameIsSafe(t: MockTables, fullName: Option<string>, address: Option<string>,
                               meterNumber: Option<string>, selectedDisco: Option<string>)
    requires DefaultKey in t.consumption
    requires Decide(t, fullName, address, meterNumber, selectedDisco).Accepted?
    ensures var f := Decide(t, fullName, address, meterNumber, selectedDisco).statement.filename;
      (forall i :: 0 <= i < |f| ==> FilenameChar(f[i])) && '"' !in f && '/' !in f && ' ' !in f
  {
    AcceptedIffValid(t, fullName, address, meterNumber, selectedDisco);
    var disco, m := selectedDisco.value, Trim(meterNumber.value);
    ValidMeterIsElevenDigits(m, disco);
    CodesAreUpperCase();
    var f := AttachmentFilename(disco, m);
    SafeFilename(disco, m);
    AllFilenameChars(f);
  }

  lemma SafeFilename(disco: string, m: string)
    requires AllUpperLetters(disco) && AllDigits(m)
    ensures var f := AttachmentFilename(disco, m); forall i :: 0 <= i < |f| ==> FilenameChar(f[i])
  {
    var head := "utility_statement_";
    var f := AttachmentFilename(disco, m);
    assert forall i :: 0 <= i < |head| ==> FilenameChar(head[i]);
    forall i | 0 <= i < |f| ensures FilenameChar(f[i]) {
      if i < |head| {
        assert f[i] == head[i];
      } else if i < |head| + |disco| {
        assert f[i] == disco[i - |head|];
      } else if i == |head| + |disco| {
        assert f[i] == '_';
      } else if i < |head| + |disco| + 1 + |m| {
        assert f[i] == m[i - |head| - |disco| - 1];
      } else {
        assert f[i] == ".pdf"[i - |head| - |disco| - 1 - |m|];
      }
    }
  }

  /**
   * The registered name of an accepted statement reads back as the first
   * word of the company's name and the last four digits of the meter number.
   */
  lemma AcceptedRegisteredName(t: MockTables, fullName: Option<string>, address: Option<string>,
                               meterNumber: Option<string>, selectedDisco: Option<string>)
    requires DefaultKey in t.consumption
    requires Decide(t, fullName, address, meterNumber, selectedDisco).Accepted?
    ensures var s := Decide(t, fullName, address, meterNumber, selectedDisco).statement;
      |s.meterNumber| == 11 && AllDigits(s.meterNumber)
      && ParseRegisteredName(s.registeredName) == Some((FirstWord(DiscoInfo[s.disco].name), s.meterNumber[7..]))
  {
    AcceptedIffValid(t, fullName, address, meterNumber, selectedDisco);
    var s := Decide(t, fullName, address, meterNumber, selectedDisco).statement;
    ValidMeterIsElevenDigits(s.meterNumber, s.disco);
    ParseMeterRegisteredName(s.meterNumber, s.disco);
  }
}
