# Bill Track NG: request validation and lookups, in Dafny

Bill Track NG is a small Express service. It turns a form with a customer's name,
address, meter number and electricity distribution company (DISCO) into a PDF
utility statement. This project models the part of `server.js` that decides what
happens to a request, and proves properties of that model:

- the two reference tables of the DISCOs: meter-number prefixes and display records;
- the two mock account tables and their lookups under the composite key `"{disco}-{meter}"`;
- the meter-number validator `verifyMeterNumber`, as a method with the source's
  loop, flag and early `break`, proved against a predicate;
- the placeholder customer name `getMeterRegisteredName`, together with a parser
  that reads the name back;
- the date normaliser `formatDate`;
- the `/generate-bill` decision: trimming, the three ordered checks, and the
  statement data an accepted request carries (the lookups and the attachment name).

The JavaScript built-ins the core relies on are modelled in `js_text.dfy`:

- `String.prototype.trim` over the ECMAScript white-space and line-terminator set;
- `split` with a one-character separator;
- `parseInt(s, 10)`, with `None` standing for `NaN`;
- `padStart(2, '0')`, `slice(-k)` and `String(n)` for a natural number.

Files and modules: `options.dfy` (Options), `js_text.dfy` (JsText), `disco.dfy`
(Disco), `mock_data.dfy` (MockData), `meter_validator.dfy` (MeterValidator),
`registered_name.dfy` (RegisteredName), `date_format.dfy` (DateFormat),
`bill_handler.dfy` (BillHandler) and `prototype_lookup.dfy` (PrototypeLookup).

Four behaviours of `server.js` that are easy to assume otherwise. The model follows the code in each:

- The DEFAULT consumption record's dates are computed once, when the module loads
  (server.js:65-72), not afresh on each lookup. They are the `LoadClock` parameter.
- A meter number shorter than four characters is kept whole in the registered
  name (`slice(-4)`). `XXXX` appears only for an empty number (server.js:103).
- `selectedDisco` is not trimmed. Only the meter number, name and address are
  (server.js:123-125).
- The message for a wrong meter number names the company's display name, for
  example `Abuja Electricity Distribution Company`, and not its code (server.js:139-140).

Inputs are parameters:

- The mock tables a request is served from are a `MockTables` argument. "No lookup
  happens on a 400" is then stated as "every rejection is the same whatever the
  tables hold".
- A body field that is absent is `None`.

## Model

| member | source | states |
|---|---|---|
| `Disco.TablesShareCodes` | server.js:30-47 | `DISCO_INFO` and `DISCO_PREFIXES` list the same eleven companies |
| `Disco.PrefixesWellFormed` | server.js:30-34 | every company has at least one prefix, and every prefix is four or five decimal digits |
| `Disco.CodesAreUpperCase` | server.js:30-47 | every company code is a non-empty run of upper-case letters, so it holds no `-`, `_` or quote |
| `MockData.SourceTables` | server.js:50-73 | the tables the service starts with always contain the `DEFAULT` consumption entry |
| `MockData.LookupKey` | server.js:55 | no `ensures` of its own: the composite key `${selectedDisco}-${meterNumber}`, used by both lookups; its meaning is given by `LookupKeyInjective`, `LookupKeyMatches` and `LookupKeyIsNeverDefault` |
| `MockData.DayMonthYear` | server.js:67-69 | no `ensures` of its own: the template `${pad2(day)}/${pad2(month)}/${year}`; its meaning is given by `DayMonthYearShape` and `DateFormat.LoadDateIsFixedPoint` |
| `MockData.DefaultConsumption` | server.js:64-72 | no `ensures` of its own: the `DEFAULT` record, consumption 150 with the two load-time dates; its meaning is given by `SourceConsumption` |
| `MockData.GetMockLastRecharge` | server.js:54-59 | `None` (`null`) exactly when the composite key is absent; otherwise the table's entry under that key |
| `MockData.GetMockConsumptionAndPeriod` | server.js:75-84 | the entry under the composite key when there is one, otherwise exactly the `DEFAULT` entry |
| `MockData.LookupKeyInjective` | server.js:54-84 | for codes without `-`, equal keys mean equal codes and equal meter numbers |
| `MockData.LookupKeyAmbiguousWithDash` | server.js:54-84 | without that restriction the key is ambiguous: `AEDC` + `0412-3456789` and `AEDC-0412` + `3456789` share a key |
| `MockData.LookupKeyIsNeverDefault` | server.js:76-83 | no code and meter number build the key `DEFAULT`, so the fallback entry is reached only through the miss branch |
| `MockData.LookupKeyMatches` | server.js:54-84 | for dash-free codes, two keys agree if and only if their codes and their numbers agree |
| `MockData.MockKeys` | server.js:51-64 | the keys of the two mock accounts are the keys built for AEDC 04123456789 and IE 04101112233 (a definitional unfolding the table lemmas use) |
| `MockData.SourceLastRecharge` | server.js:50-59 | on the real tables, the recharge lookup for a dash-free code finds the record of exactly the two mock accounts, and `None` for every other account |
| `MockData.SourceConsumption` | server.js:62-84 | on the real tables, the consumption lookup gives the specific record of the two mock accounts and the `DEFAULT` record of the load-time clock for every other account |
| `MockData.DayMonthYearShape` | server.js:67-71 | for a four-digit year, the load-time dates are `DD/MM/YYYY`: ten characters, slashes at 2 and 5, digit groups whose values are the day, the month and the year |
| `MeterValidator.StartsWithAnyIff` | server.js:96-97 | the indexed prefix test is the same as "some prefix in the list starts the number" |
| `MeterValidator.MeterNumberValid` | server.js:88-100 | no `ensures` of its own: the ordered checks of `verifyMeterNumber`; its meaning is given by `VerifyMeterNumber`, `ValidIffSomePrefix` and `ValidMeterIsElevenDigits` |
| `MeterValidator.VerifyMeterNumber` | server.js:88-100 | the loop's result is the validity predicate. It is false for an empty number or code, for a non-digit or a length other than 11, and for a code without prefixes. For an 11-digit number and a known code it is true if and only if some prefix of that code starts the number |
| `MeterValidator.ValidIffSomePrefix` | server.js:92-99 | for every 11-digit number: valid exactly when the code is in the prefix table and one of its prefixes starts the number |
| `MeterValidator.ValidMeterIsElevenDigits` | server.js:92-95 | a valid number is eleven decimal digits and its code is in the prefix table |
| `MeterValidator.ValidForTwoCompanies` | server.js:31 | a number valid for two different companies is valid for exactly AEDC and IE, and starts `04123` |
| `MeterValidator.ValidStartsWith04` | server.js:31-33 | every valid number starts `04`, whatever its company |
| `MeterValidator.PrefixesDisjoint` | server.js:31-33 | two prefixes of different companies agree on four digits only for AEDC's `04123` against IE's `0412` |
| `MeterValidator.OwnerOfPrefix` | server.js:31-33 | every prefix starts `04`, and its four-digit head names its company, except AEDC's `04123`, whose head `0412` is IE's |
| `RegisteredName.DisplayName` | server.js:102 | a known code gives the name from `DISCO_INFO`, and any other code that is not an inherited object member stands in for itself (inherited names: `PrototypeLookup.MeterRegisteredNameAsWritten`) |
| `RegisteredName.FirstWord` | server.js:103 | the first word is the unspaced text before the first space, or the whole name when there is no space |
| `RegisteredName.MeterTail` | server.js:103 | `XXXX` for an empty number; otherwise the last `min(4, length)` characters of the number |
| `RegisteredName.NameLayout` | server.js:103 | where the fixed text, the word and the tail sit in `Customer (w - t)` (a definitional unfolding the read-back proof uses) |
| `RegisteredName.NameFor` | server.js:103 | no `ensures` of its own: the template `Customer (${word} - ${tail})`; its meaning is given by `ParseNameFor` and `NameForParts` |
| `RegisteredName.MeterRegisteredName` | server.js:101-104 | no `ensures` of its own: `getMeterRegisteredName`; its meaning is given by `ParseMeterRegisteredName`, `MeterRegisteredNameOfKnownCode` and `MeterRegisteredNameOfUnknownCode` |
| `RegisteredName.ParseNameFor` | server.js:103 | reading a registered name back gives exactly the word and the tail it was built from |
| `RegisteredName.NameForParts` | server.js:103 | the name is `Customer (` + word + ` - ` + tail + `)` for the computed word and tail (a definitional unfolding) |
| `RegisteredName.ParseMeterRegisteredName` | server.js:101-104 | `getMeterRegisteredName` loses nothing it uses: the name reads back as the first word of the display name and the meter's tail |
| `RegisteredName.FirstWordBeforeSpace` | server.js:103 | the first word of `w + " " + rest` is `w` when `w` has no space |
| `RegisteredName.FirstWordWithoutSpace` | server.js:103 | a name without a space is its own first word |
| `RegisteredName.MeterRegisteredNameOfKnownCode` | server.js:101-103 | a known company contributes the first word of its display name |
| `RegisteredName.MeterRegisteredNameOfUnknownCode` | server.js:102-103 | a code outside `DISCO_INFO` without a space stands in whole for the first word; for inherited object members this agrees with the source except for `constructor` and `__proto__` (`PrototypeLookup.AsWrittenNameDiffers`) |
| `DateFormat.FormatDate` | server.js:105-112 | the result is never empty. The empty string gives `N/A`, and every non-empty string without `-` comes back unchanged |
| `DateFormat.SlashDate` | server.js:107 | no `ensures` of its own: the pass-through test read through `split('/')`; its meaning is given by `SlashDateIff` |
| `DateFormat.IsoParts` | server.js:109 | no `ensures` of its own: the guard on the three dash pieces; its meaning is given by `FormatIsoDate`, `FormatIsoDateWithTrailingText` and `FormatDateChanges` |
| `DateFormat.Reordered` | server.js:109 | no `ensures` of its own: `${pD}/${pM}/${year}`; its meaning is given by `ReorderedHasNoDash` and `IsoDigitsBecomeSlashDate` |
| `DateFormat.SlashDateIff` | server.js:107 | the pass-through test holds exactly for `d/m/y` with groups of 1-2, 1-2 and 4 digits, which is the language of `^\d{1,2}\/\d{1,2}\/\d{4}$` |
| `DateFormat.SlashDateOf` | server.js:107 | every `d/m/yyyy` with 1-2, 1-2 and 4 digits passes the test |
| `DateFormat.SlashDateHasNoDash` | server.js:107 | a string that passes the test holds no `-` |
| `DateFormat.FormatSlashDate` | server.js:107 | a `d/m/yyyy` date is returned unchanged |
| `DateFormat.FormatIsoDate` | server.js:108-109 | `year-month-day` with no `-` inside its pieces that passes the guard becomes `pad2(day)/pad2(month)/year` |
| `DateFormat.FormatIsoDateWithTrailingText` | server.js:109 | the guard reads month and day with `parseInt`, so a month or day of digits in range followed by non-digit text (`2024-5x-1`) passes, and the text is kept in the rewrite (`01/5x/2024`) |
| `DateFormat.FormatDateChanges` | server.js:105-111 | the result differs from the input only for the empty string (`N/A`) or for a three-piece dashed date that passes the guard, which is reordered |
| `DateFormat.ReorderedHasNoDash` | server.js:109 | the reordered form holds no `-` when its pieces hold none |
| `DateFormat.FormatDateIdempotent` | server.js:105-112 | `formatDate(formatDate(s)) == formatDate(s)` for every string |
| `DateFormat.IsoDigitsBecomeSlashDate` | server.js:107-109 | an all-digit ISO date with a valid month and day becomes a ten-character slash date |
| `DateFormat.LoadDateIsFixedPoint` | server.js:67-71 | the DEFAULT record's load-time dates already pass the test, so `formatDate` would leave them unchanged |
| `BillHandler.Decide` | server.js:120-162 | no `ensures` of its own: the handler's decision; its meaning is given by `RequiredFirst`, `InvalidDiscoSecond`, `InvalidMeterThird`, `AcceptedIffValid` and `RejectionIgnoresTables` |
| `BillHandler.AttachmentFilename` | server.js:162 | no `ensures` of its own: `utility_statement_${selectedDisco}_${meterNumber}.pdf`; its meaning is given by `SafeFilename` and `AcceptedFilenameIsSafe` |
| `BillHandler.InvalidMeterMessage` | server.js:140 | no `ensures` of its own: the third 400's text; its meaning is given by `MeterMessageNamesCompany` and `MessagesDiffer` |
| `BillHandler.HandleGenerateBill` | server.js:120-162 | the handler body, with its reassigned fields, early returns and the imperative validator, gives exactly the decision `Decide` |
| `BillHandler.TrimFieldPresent` | server.js:123-130 | a trimmed field is truthy exactly when it is present and not all white space |
| `BillHandler.MessagesDiffer` | server.js:130-140 | the three rejection texts differ from one another |
| `BillHandler.RequiredFirst` | server.js:123-132 | the "required" 400 happens if and only if a trimmed field is absent or empty, or the code is absent or empty |
| `BillHandler.InvalidDiscoSecond` | server.js:133-135 | with every field present, the "Invalid DISCO" 400 happens if and only if the code is not a company of the tables |
| `BillHandler.InvalidMeterThird` | server.js:138-141 | with every field present and a known code, the meter 400 naming the company happens if and only if the trimmed number fails the validator |
| `BillHandler.MeterMessageNamesCompany` | server.js:139-140 | the meter message holds the company name right after its fixed opening |
| `BillHandler.AcceptedIffValid` | server.js:130-162 | a request is accepted if and only if it passes all three checks. The statement then holds the trimmed values and the code, the registered name, both lookups under the composite key, and `utility_statement_{disco}_{meter}.pdf` |
| `BillHandler.RejectionIgnoresTables` | server.js:130-149 | every 400 is the same whatever the mock tables hold: no lookup happens before the checks pass |
| `BillHandler.AcceptedFilenameIsSafe` | server.js:162 | an accepted attachment name has only letters, digits, `_` and `.`, so no quote, slash or space |
| `BillHandler.SafeFilename` | server.js:162 | an upper-case code and a digit string give an attachment name of letters, digits, `_` and `.` |
| `BillHandler.AcceptedRegisteredName` | server.js:144 | an accepted statement's meter is eleven digits, and its registered name reads back as the company's first word and the last four digits |
| `PrototypeLookup.VerifyMeterNumberAsWritten` | server.js:88-100 | with inherited lookups it is valid exactly when the validity predicate holds. It throws exactly for an inherited name with an 11-digit number |
| `PrototypeLookup.InheritedKeysAreNotCodes` | server.js:30-47 | no `Object.prototype` member name is a company code |
| `PrototypeLookup.AsWrittenAgreesOnOwnKeys` | server.js:120-162 | for every code that is not an inherited name, the handler as written decides exactly as `Decide` |
| `PrototypeLookup.InheritedKeyCrashes` | server.js:133-138 | an inherited name with an 11-digit number passes the DISCO check and throws (a 500), where `Decide` answers "Invalid DISCO" |
| `PrototypeLookup.ToStringCrashes` | server.js:133-138 | the same for the code `toString` |
| `PrototypeLookup.InheritedKeyBlamesMeter` | server.js:133-140 | with any other number, an inherited name gets the meter 400 naming `Object`, `undefined` or the method's name, where `Decide` answers "Invalid DISCO" |
| `PrototypeLookup.DecideAsWritten` | server.js:120-162 | no `ensures` of its own: the handler with the source's object lookups; its meaning is given by `AsWrittenAgreesOnOwnKeys`, `InheritedKeyCrashes`, `InheritedKeyBlamesMeter` and `InheritedKeyNeverAccepted` |
| `PrototypeLookup.MeterRegisteredNameAsWritten` | server.js:101-104 | `getMeterRegisteredName` with the source's object lookup: it throws exactly for `__proto__`, and for every code that is not an inherited name it is `MeterRegisteredName` |
| `PrototypeLookup.AsWrittenNameDiffers` | server.js:101-104 | for an inherited name, the source's registered name equals the model's exactly when the name is neither `constructor` (named `Object`) nor `__proto__` (throws) |
| `PrototypeLookup.InheritedKeyNeverAccepted` | server.js:133-162 | an inherited name is never accepted, so the handler never builds a registered name for one: the response is a 500 or a 400 |
| `PrototypeLookup.DigitsAreTrimmed` | server.js:123 | trimming leaves a digit string unchanged |
| `JsText.LeadingWhiteSpace` | server.js:123-125 | the count of leading white-space characters: all of them white space, and the next character is not |
| `JsText.TrailingWhiteSpace` | server.js:123-125 | the count of trailing white-space characters: all of them white space, and the one before is not |
| `JsText.Trim` | server.js:123-125 | the result is empty or starts and ends with a non-white-space character |
| `JsText.TrimSlice` | server.js:123-125 | the result is a slice of the input with only white space cut on either side |
| `JsText.TrimEmptyIffAllWhiteSpace` | server.js:123-130 | trimming gives the empty string if and only if the input is all white space |
| `JsText.TrimOfTrimmed` | server.js:123-125 | a string with no white space at either end is unchanged |
| `JsText.TrimIdempotent` | server.js:123-125 | trimming twice is trimming once |
| `JsText.Split` | server.js:108 | at least one piece, and no piece holds the separator |
| `JsText.SplitJoin` | server.js:108 | joining the pieces with the separator gives the input back |
| `JsText.SplitWithoutSeparator` | server.js:108 | a string without the separator is one piece |
| `JsText.SplitAtFirst` | server.js:108 | split cuts at the first separator and goes on with the rest |
| `JsText.FirstPiece` | server.js:103 | the first piece is the input up to its first separator, or all of it |
| `JsText.DigitPrefix` | server.js:109 | the longest prefix of decimal digits |
| `JsText.ParseInt` | server.js:109 | `NaN` (`None`) exactly when no digit follows the leading white space and the optional sign |
| `JsText.ParseIntValue` | server.js:109 | white space, an optional `+` or `-`, a non-empty digit run and text that does not go on with a digit parse to the signed value of the run: `" 5"`, `"+5"` and `"5x"` give 5, `"-5"` gives -5 |
| `JsText.ParseIntNaN` | server.js:109 | white space, an optional sign, and then no digit give `NaN` |
| `JsText.ParseIntOfDigitsThen` | server.js:109 | a digit run followed by text that does not start with a digit parses to the run's value |
| `JsText.TrimStartOf` | server.js:109 | the leading white space `parseInt` skips is exactly the white-space run before the first other character |
| `JsText.DigitPrefixOf` | server.js:109 | the digit run `parseInt` reads stops at the first non-digit |
| `JsText.UnsignedPart` | server.js:109 | one leading `+` or `-` is dropped; text that does not open with a sign is kept whole |
| `JsText.ParseIntOfDigits` | server.js:109 | a non-empty digit string parses to its decimal value |
| `JsText.DigitPrefixOfDigits` | server.js:109 | a digit string is its own digit prefix |
| `JsText.DigitChar` | server.js:69 | the decimal digit character of a value below ten |
| `JsText.DecimalString` | server.js:69 | `String(n)`: non-empty decimal digits whose value is `n`, one to four characters for `n` below 10, 100, 1000 and 10000 |
| `JsText.PadStart2` | server.js:109 | the result is two long or the input's length, ends with the input, and starts with zeros |
| `JsText.SliceFromEnd` | server.js:103 | the last `k` characters, or the whole string when it is shorter |

## Left out

- PDF rendering (server.js:155-280). pdfkit is a foreign library, its layout works on
  floating-point page coordinates and measured text heights, and the stamp placement
  depends on those measurements.
- Fonts and assets (server.js:18-27, 116, 145). These are file-system probes.
- The clock arithmetic of the DEFAULT record (server.js:67-71). `new Date()`, the
  30-day step back and `toLocaleDateString('en-GB')` are not modelled. The two
  calendar dates are the `LoadClock` parameter, and `toLocaleDateString('en-GB')` is
  taken to give the same `DD/MM/YYYY` layout as the other date.
- MockData.DayMonthYearShape: stated only for four-digit years, because `String(year)`
  is shorter before the year 1000.
- The consumption value is a JavaScript number. It is held as the text its
  `toString()` prints (`210.5`, `175`, `150`), with no arithmetic.
- Express plumbing: routing, body parsing, CORS, static files, `app.listen`,
  streaming, response headers other than the attachment name, and its error pages.
  Only the decision outcome is modelled. A thrown exception is the single
  `ServerError` outcome.
- Logging (`console.*`). It has no effect on any result.
- Body fields that are not strings (numbers, arrays, objects), together with the
  `typeof` tests at server.js:91, 106 and 123-125. Every field is a string or absent.
- Strings are sequences of Dafny characters, not UTF-16 code units. A character
  outside the Basic Multilingual Plane counts once here but twice for `length`
  and `slice(-4)` in JavaScript.
- RegisteredName.NameFor and RegisteredName.MeterRegisteredName: no `ensures` of
  their own. Their meaning is stated by the read-back lemmas `ParseNameFor` and
  `ParseMeterRegisteredName`.
- RegisteredName.DisplayName: models `DISCO_INFO[code] || { name: code }` only for
  codes that are not inherited object members. For `constructor` the source uses
  `Object`, and for `__proto__` it throws; that as-written behaviour is
  `PrototypeLookup.MeterRegisteredNameAsWritten`. The handler never reaches it with
  such a code (`PrototypeLookup.InheritedKeyNeverAccepted`).
- JsText.ParseInt: the value is an unbounded integer, where JavaScript gives a
  floating-point number that rounds once the value passes 2^53. The only
  use, the range tests at server.js:109, decides the same either way.
- The browser script `public/script.js`. It only drives the page, and its
  client-side 11-digit check repeats server.js:92-93.

## Findings

| source | as written | input that shows it | evidently intended | confidence | as-written member | corrected member |
|---|---|---|---|---|---|---|
| server.js:133-135 | The truthiness tests on `DISCO_INFO[selectedDisco]` and `DISCO_PREFIXES[selectedDisco]` index plain object literals, so every name inherited from `Object.prototype` (`toString`, `constructor`, `__proto__`, ...) is truthy and passes the check. `verifyMeterNumber` then iterates the inherited function with `for...of`, which throws a `TypeError` (server.js:94-97), or, for a number that is not 11 digits, the 400 names `Object`, `undefined` or `toString` | `selectedDisco = "toString"`, `meterNumber = "04123456789"`, non-empty name and address: the handler throws, giving a 500 | the 400 "Invalid DISCO selection or configuration." for every code that is not a company | not executed; follows from JavaScript property lookup on object literals | `PrototypeLookup.ToStringCrashes` | `BillHandler.InvalidDiscoSecond` |
