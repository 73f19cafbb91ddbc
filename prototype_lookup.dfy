/**
 * The DISCO tables are plain object literals, so indexing them with a code
 * also finds the members every object inherits from `Object.prototype`.
 * This module models the handler with those lookups as they happen, and
 * shows where it departs from the decision in `BillHandler`: an inherited
 * name passes the DISCO check that should reject it.
 */
module PrototypeLookup {
  import opened Options
  import opened JsText
  import opened Disco
  import opened MockData
  import opened MeterValidator
  import opened RegisteredName
  import opened BillHandler

  /** The property names a plain object inherits from `Object.prototype`. */
  const InheritedKeys: set<string> := {
    "constructor", "__proto__", "toString", "valueOf", "hasOwnProperty", "isPrototypeOf",
    "propertyIsEnumerable", "toLocaleString",
    "__defineGetter__", "__defineSetter__", "__lookupGetter__", "__lookupSetter__"
  }

  /**
   * `DISCO_INFO[k].name` for an inherited `k`: the `Object` constructor is
   * named `Object`, `Object.prototype` has no `name` (the template prints
   * `undefined`), and each inherited method carries its own name.
   */
  function InheritedName(k: string): string {
    if k == "constructor" then "Object" else if k == "__proto__" then "undefined" else k
  }

  /** A table lookup is truthy for an own code and for every inherited name. */
  predicate Truthy(table: set<string>, k: string) { k in table || k in InheritedKeys }

  /** The company name the meter message shows, with the inherited fallback. */
  function ShownName(disco: string): string {
    if disco in DiscoInfo then DiscoInfo[disco].name else InheritedName(disco)
  }

  /** The three ways `verifyMeterNumber` can end. */
  datatype Verdict = Valid | Invalid | Throws

  /**
   * `verifyMeterNumber` as written: an inherited value passes the
   * `!prefixesForSelectedDisco` guard, and `for (const prefix of …)` over a
   * function or over `Object.prototype` throws a `TypeError`, since neither
   * is iterable.
   */
  function VerifyMeterNumberAsWritten(meter: string, disco: string): (v: Verdict)
    ensures v == Valid <==> MeterNumberValid(meter, disco)
    ensures v == Throws <==> disco in InheritedKeys && meter != [] && AllDigits(meter) && |meter| == 11
  {
    InheritedKeysAreNotCodes();
    if meter == [] || disco == [] then Invalid
    else if !AllDigits(meter) then Invalid
    else if |meter| != 11 then Invalid
    else if disco in DiscoPrefixes then (if StartsWithAny(DiscoPrefixes[disco], meter) then Valid else Invalid)
    else if disco in InheritedKeys then Throws
    else Invalid
  }

  /** The response: a decision, or the framework's 500 page for an exception thrown by the handler. */
  datatype Response = Responded(outcome: Outcome) | ServerError

  /** The handler's decision with the inherited lookups of the source. */
  function DecideAsWritten(t: MockTables, fullName: Option<string>, address: Option<string>,
                           meterNumber: Option<string>, selectedDisco: Option<string>): Response
    requires DefaultKey in t.consumption
  {
    var name, addr, meter := TrimField(fullName), TrimField(address), TrimField(meterNumber);
    if !Present(name) || !Present(addr) || !Present(meter) || !Present(selectedDisco) then
      Responded(Rejected(RequiredMessage))
    else
      var disco, m := selectedDisco.value, meter.value;
      if !Truthy(DiscoInfo.Keys, disco) || !Truthy(DiscoPrefixes.Keys, disco) then
        Responded(Rejected(InvalidDiscoMessage))
      else
        var v := VerifyMeterNumberAsWritten(m, disco);
        if v == Throws then ServerError
        else if v == Invalid then Responded(Rejected(InvalidMeterMessage(ShownName(disco))))
        else
          TablesShareCodes();
          Responded(Accepted(StatementFor(t, name.value, addr.value, m, disco)))
  }

  /** No company code is an inherited name: the codes are upper-case letters, and no inherited name opens with one. */
  lemma InheritedKeysAreNotCodes()
    ensures forall k :: k in InheritedKeys ==> k != [] && k !in DiscoInfo && k !in DiscoPrefixes
  {
    CodesAreUpperCase();
    TablesShareCodes();
    forall k | k in InheritedKeys ensures k != [] && !IsUpperLetter(k[0]) {
    }
  }

  /** Off the inherited names, the source's handler decides exactly as `Decide`. */
  lemma AsWrittenAgreesOnOwnKeys(t: MockTables, fullName: Option<string>, address: Option<string>,
                                 meterNumber: Option<string>, selectedDisco: Option<string>)
    requires DefaultKey in t.consumption
    requires selectedDisco.None? || selectedDisco.value !in InheritedKeys
    ensures DecideAsWritten(t, fullName, address, meterNumber, selectedDisco)
         == Responded(Decide(t, fullName, address, meterNumber, selectedDisco))
  {
    TablesShareCodes();
  }

  /**
   * The discrepancy: with the other fields filled in and an 11-digit
   * number, an inherited name such as `toString` gets past the DISCO check
   * and the handler throws (a 500), where the intended answer is the
   * "Invalid DISCO" 400 that `Decide` gives.
   */
  lemma InheritedKeyCrashes(t: MockTables, fullName: Option<string>, address: Option<string>,
                            meterNumber: Option<string>, k: string)
    requires DefaultKey in t.consumption
    requires !Blank(fullName) && !Blank(address) && meterNumber.Some?
    requires AllDigits(meterNumber.value) && |meterNumber.value| == 11
    requires k in InheritedKeys
    ensures DecideAsWritten(t, fullName, address, meterNumber, Some(k)) == ServerError
    ensures Decide(t, fullName, address, meterNumber, Some(k)) == Rejected(InvalidDiscoMessage)
  {
    var m := meterNumber.value;
    DigitsAreTrimmed(m);
    TrimFieldPresent(fullName);
    TrimFieldPresent(address);
    assert k != [] && k !in DiscoInfo && k !in DiscoPrefixes by { InheritedKeysAreNotCodes(); }
  }

  /** The instance the finding is stated with: `selectedDisco` set to `toString`. */
  lemma ToStringCrashes(t: MockTables, fullName: Option<string>, address: Option<string>, meterNumber: Option<string>)
    requires DefaultKey in t.consumption
    requires !Blank(fullName) && !Blank(address) && meterNumber.Some?
    requires AllDigits(meterNumber.value) && |meterNumber.value| == 11
    ensures DecideAsWritten(t, fullName, address, meterNumber, Some("toString")) == ServerError
    ensures Decide(t, fullName, address, meterNumber, Some("toString")) == Rejected(InvalidDiscoMessage)
  {
    InheritedKeyCrashes(t, fullName, address, meterNumber, "toString");
  }

  /**
   * With any other non-empty number, an inherited name gets as far as the
   * meter check, and the 400 names the inherited value (`Object` for
   * `constructor`, `undefined` for `__proto__`) instead of saying the
   * DISCO selection is invalid.
   */
  lemma InheritedKeyBlamesMeter(t: MockTables, fullName: Option<string>, address: Option<string>,
                                meterNumber: Option<string>, k: string)
    requires DefaultKey in t.consumption
    requires !Blank(fullName) && !Blank(address) && !Blank(meterNumber)
    requires !(AllDigits(Trim(meterNumber.value)) && |Trim(meterNumber.value)| == 11)
    requires k in InheritedKeys
    ensures DecideAsWritten(t, fullName, address, meterNumber, Some(k))
         == Responded(Rejected(InvalidMeterMessage(InheritedName(k))))
    ensures Decide(t, fullName, address, meterNumber, Some(k)) == Rejected(InvalidDiscoMessage)
  {
    TrimFieldPresent(fullName);
    TrimFieldPresent(address);
    TrimFieldPresent(meterNumber);
    assert k != [] && k !in DiscoInfo && k !in DiscoPrefixes by { InheritedKeysAreNotCodes(); }
  }

  /**
   * `getMeterRegisteredName` with the source's object lookup. An inherited
   * member is truthy, so the `|| { name: selectedDisco }` fallback is not
   * taken and the member's own `name` is used; `Object.prototype` (for
   * `__proto__`) has no `name`, and `.split` on `undefined` throws (`None`).
   */
  function MeterRegisteredNameAsWritten(meter: string, disco: string): (r: Option<string>)
    ensures r.None? <==> disco == "__proto__"
    ensures disco !in InheritedKeys ==> r == Some(MeterRegisteredName(meter, disco))
  {
    if disco == "__proto__" then None
    else if disco in InheritedKeys then Some(NameFor(InheritedName(disco), meter))
    else Some(MeterRegisteredName(meter, disco))
  }

  /**
   * Among the inherited names, the name as written differs from
   * `MeterRegisteredName` only for `constructor` (whose name is `Object`)
   * and `__proto__` (which throws); every inherited method is named after
   * itself, as an unknown code is.
   */
  lemma AsWrittenNameDiffers(meter: string, k: string)
    requires k in InheritedKeys
    ensures MeterRegisteredNameAsWritten(meter, k) == Some(MeterRegisteredName(meter, k))
        <==> k != "constructor" && k != "__proto__"
  {
    assert k != [] && k !in DiscoInfo by { InheritedKeysAreNotCodes(); }
    if k == "constructor" {
      ObjectNameDiffers(meter);
    }
  }

  /** `Object` and `constructor` give registered names of different lengths. */
  lemma ObjectNameDiffers(meter: string)
    ensures NameFor("Object", meter) != NameFor("constructor", meter)
  {
    FirstWordWithoutSpace("Object");
    FirstWordWithoutSpace("constructor");
    assert |NameFor("Object", meter)| == 20 + |MeterTail(meter)|;
    assert |NameFor("constructor", meter)| == 25 + |MeterTail(meter)|;
  }

  /**
   * The difference cannot show: the handler builds the registered name only
   * for an accepted request, and a request with an inherited name is never
   * accepted, because the validator as written never finds it valid.
   */
  lemma InheritedKeyNeverAccepted(t: MockTables, fullName: Option<string>, address: Option<string>,
                                  meterNumber: Option<string>, k: string)
    requires DefaultKey in t.consumption
    requires k in InheritedKeys
    ensures var r := DecideAsWritten(t, fullName, address, meterNumber, Some(k));
      r == ServerError || r.outcome.Rejected?
  {
    InheritedKeysAreNotCodes();
  }

  /** A string of digits has no white space to trim. */
  lemma DigitsAreTrimmed(ds: string)
    requires ds != [] && AllDigits(ds)
    ensures Trim(ds) == ds
  {
    assert IsDigit(ds[0]) && IsDigit(ds[|ds| - 1]);
    TrimOfTrimmed(ds);
  }
}
