# StringUtils in Dafny

A model of the string utility library `src/StringUtils/index.ts`: six stateless functions that
mask a mobile number, format an amount of money with thousands separators, and test whether
a string is a mobile number, a citizen identity number (the 18-character layout of GB 11643-1999),
a vehicle plate, or blank.

Each JavaScript function is one `RegExp.test`, one `trim().length` check, or `String.replace`
(once in `hideMobile`, twice in a row in `formatMoney`), so each becomes a Dafny function or predicate over `string`. Every regular expression is
written out as character-class predicates (module `Chars`), piece by piece as the pattern reads,
with the semantics of a JavaScript pattern without the `u` and `m` flags: `\d` is ASCII `0`–`9`,
and `^`/`$` anchor the whole string. The lemmas then restate each pattern in an independent form
(numeric ranges, per-character conditions, thousands groups) and prove the two agree.

| source function | module | Dafny |
|---|---|---|
| `hideMobile` | `Mobile` | `HideMobile`, with `MobileShape` for the pattern |
| `isPhone` | `Mobile` | `IsPhone` |
| `formatMoney` | `Money` | `FormatMoney` = `Punctuate(Digits(num), 0)` |
| `isIdCard` | `IdCard` | `IsIdCard`, built from `IsRegionCode`, `IsCentury`, `IsMonth`, `IsDay`, `IsCheckChar` |
| `isVehicleNumber` | `VehiclePlate` | `IsVehicleNumber` = `FiveCharTail` or `FourCharDigitTail` |
| `isEmptyString` | `Blank` | `IsEmptyString`, with `Trim` built from `SkipLeading` and `SkipTrailing` |

`formatMoney`'s second step, a global replacement of the empty pattern
`\B(?=(\d{3})+(?!\d))`, is modelled as the left-to-right scan the regular-expression engine makes
over the positions of the cleaned digit string (`Punctuate`). At each position the engine tests
the pattern. `CommaRuleIsThePattern` proves that on a digit string this test, read literally
(`NotWordBoundary` for `\B`, and an existential number of three-digit groups for the lookahead),
holds exactly when `0 < p < n` and `(n - p) % 3 == 0` (`CommaBefore`).

Where the code and its documentation disagree, the model follows the code. The doc comment of
`formatMoney` promises `"1,234,567.89"` for `1234567.89`. The code removes the decimal point
before grouping and gives `"123,456,789"` (`FormatMoneyFractionExample`, for the string
`"1234567.89"`).
The grouping applies to all the digits kept, so the result is not the bare `"123456789"` either.

## Model

| member | source | states |
|---|---|---|
| Mobile.HideMobile | src/StringUtils/index.ts:7-9 | the result has the input's length; characters outside positions 3–6 are unchanged; positions 3–6 become `*` exactly when the whole input is eleven ASCII digits; the result equals the input iff the input is not of that shape |
| Mobile.IsPhone | src/StringUtils/index.ts:30 | the pattern `^[1][3-9][0-9]{9}$`: eleven characters, `1`, a digit 3–9, nine digits; `PhoneIsMasked` proves every such string has the maskable shape and is changed by masking, `PhoneStricterThanMobileShape` that the converse fails |
| Mobile.HideMobileMasks | src/StringUtils/index.ts:8 | an eleven-digit input becomes its first three digits, `****` and its last four digits |
| Mobile.HideMobileIdempotent | src/StringUtils/index.ts:8 | masking a masked result changes nothing |
| Mobile.MobileShape | src/StringUtils/index.ts:8 | the pattern `^(\d{3})\d{4}(\d{4})$`: exactly eleven ASCII digits; `HideMobile` masks exactly the strings of this shape and `HideMobileMasks` gives the masked form |
| Mobile.PhoneIsMasked | src/StringUtils/index.ts:30 | every string `isPhone` accepts has the maskable shape, is changed by `hideMobile` into first three + `****` + last four, and the masked string is no longer a valid phone number |
| Mobile.PhoneStricterThanMobileShape | src/StringUtils/index.ts:30 | some eleven-digit strings are not phone numbers (the second digit must be 3–9) |
| Mobile.PhoneExamples | src/StringUtils/index.ts:7-30 | `13812345678` is a phone number and masks to `138****5678`; `12812345678` and `1381234567` are not; a 10-digit string passes through `hideMobile` unchanged |
| Money.Digits | src/StringUtils/index.ts:19 | removing the non-digits leaves only ASCII digits and never lengthens the string |
| Money.DigitsAppend | src/StringUtils/index.ts:19 | cleaning distributes over concatenation, so the kept digits stay in their original order |
| Money.DigitsOfDigits | src/StringUtils/index.ts:19 | a string of digits is left as it is by the cleaning step |
| Money.DigitsEmpty | src/StringUtils/index.ts:19 | the cleaned string is empty exactly when the input contains no ASCII digit |
| Money.Punctuate | src/StringUtils/index.ts:20 | the global replacement of `\B(?=(\d{3})+(?!\d))` by `,`, position by position; `CommaRuleIsThePattern` proves its comma test is the pattern, `PunctuateIsJoin` that its output is the thousands groups joined by commas |
| Money.FormatMoney | src/StringUtils/index.ts:18-21 | cleaning then punctuating; `FormatMoneyKeepsDigits`, `FormatMoneyWellSeparated` and `FormatMoneyGroups` state what the result is: the input's digits in order, grouped by thousands from the right, every comma between two digits |
| Money.CommaRuleIsThePattern | src/StringUtils/index.ts:20 | on a digit string, `\B` followed by the lookahead `(\d{3})+(?!\d)` holds at position `p` iff `0 < p < n` and `n - p` is a multiple of 3 |
| Money.PunctuateRemoveCommas | src/StringUtils/index.ts:20 | the comma replacement only inserts commas: removing them gives back the digit string |
| Money.FormatMoneyKeepsDigits | src/StringUtils/index.ts:18-20 | the result with its commas removed is exactly the input's digits in order; the result is empty iff the input has no digit |
| Money.PunctuateCommaThenDigit | src/StringUtils/index.ts:20 | the replacement emits only digits and commas, and every comma is followed by a digit |
| Money.FormatMoneyWellSeparated | src/StringUtils/index.ts:18-20 | every comma of the result stands between two digits: none leads, none trails, no two are adjacent |
| Money.ChunksGrouped | src/StringUtils/index.ts:20 | cutting the digits into threes from the right gives a first group of 1–3 digits and further groups of exactly 3, whose concatenation is the digit string |
| Money.PunctuateIsJoin | src/StringUtils/index.ts:20 | the comma replacement equals those groups joined by commas, and adds `(n - 1) / 3` commas to `n` digits |
| Money.FormatMoneyGroups | src/StringUtils/index.ts:18-20 | the result is the input's digits grouped by thousands from the right and joined with commas, of length `n + (n - 1) / 3` |
| Money.FormatMoneyStable | src/StringUtils/index.ts:18-20 | formatting a formatted amount gives it back unchanged |
| Money.FormatMoneyEdgeExamples | src/StringUtils/index.ts:18-20 | the empty input (the default argument) gives `""`; `"0"` gives `"0"` |
| Money.FormatMoneyIntegerExample | src/StringUtils/index.ts:18-20 | `"1234567"` gives `"1,234,567"` |
| Money.FormatMoneyFractionExample | src/StringUtils/index.ts:16-20 | `"1234567.89"` gives `"123,456,789"`: the decimal point is dropped before the grouping |
| IdCard.CenturyRange | src/StringUtils/index.ts:38 | the century alternatives accept exactly the two-digit strings whose value is 18 to 20 |
| IdCard.MonthRange | src/StringUtils/index.ts:38 | the month alternatives accept exactly the two-digit strings whose value is 1 to 12 |
| IdCard.DayRange | src/StringUtils/index.ts:38 | the day alternatives accept exactly the two-digit strings whose value is 1 to 31 |
| IdCard.IsIdCard | src/StringUtils/index.ts:37-38 | the whole anchored pattern at fixed offsets; `IdCardFields` proves it equals 17 digits and a check character with a non-zero first digit, century 18–20, month 1–12 and day 1–31 |
| IdCard.IdCardFields | src/StringUtils/index.ts:37-38 | `isIdCard` holds iff the string has 18 characters, the first 17 are digits, the first is not `0`, the century is 18–20, the month 1–12, the day 1–31, and the last is a digit, `x` or `X` |
| IdCard.NoCalendarCheck | src/StringUtils/index.ts:38 | a date of February 31st is accepted: the day range does not depend on the month |
| IdCard.IdCardExamples | src/StringUtils/index.ts:37-38 | `11010519491231002X` and `110105194912310021` are accepted; a 17-character prefix and a month of 13 are rejected |
| VehiclePlate.SecondAlternativeSubsumed | src/StringUtils/index.ts:47 | every plate the second alternative `[A-Z_0-9]{4}\d` matches, the first alternative matches too |
| VehiclePlate.IsVehicleNumber | src/StringUtils/index.ts:46-47 | either anchored alternative matches; `VehicleNumberIff` proves this equals the per-character conditions of the first alternative alone |
| VehiclePlate.VehicleNumberIff | src/StringUtils/index.ts:46-47 | `isVehicleNumber` holds iff the string has 7 characters: a CJK ideograph in U+4E00..U+9FA5, an uppercase letter, then five characters from `A`–`Z`, `_`, `0`–`9` |
| VehiclePlate.LowercaseRejected | src/StringUtils/index.ts:47 | a lowercase letter after the province character makes the plate invalid |
| VehiclePlate.PlateExamples | src/StringUtils/index.ts:46-47 | `京A12345` and `粤B_Z9X8` are plates; `京A1234`, `京a12345` and `AA12345` are not |
| Blank.SkipLeading | src/StringUtils/index.ts:55 | the returned position ends a run of whitespace and is the end of the string or a non-whitespace character |
| Blank.SkipTrailing | src/StringUtils/index.ts:55 | the returned position starts a run of whitespace reaching the given end and follows a non-whitespace character or the given start |
| Blank.Trim | src/StringUtils/index.ts:55 | `String.prototype.trim`; `TrimSlice` proves it is the slice of the input outside of which everything is whitespace and which neither starts nor ends with whitespace, `TrimIdempotent` that trimming twice is trimming once |
| Blank.TrimSlice | src/StringUtils/index.ts:55 | `trim` keeps a contiguous slice of the input, everything outside it is whitespace, and the slice neither starts nor ends with whitespace |
| Blank.TrimIdempotent | src/StringUtils/index.ts:55 | trimming twice is trimming once |
| Blank.IsEmptyString | src/StringUtils/index.ts:54-55 | the empty string, or a string whose trim is empty; `BlankIffAllWhitespace` proves it holds iff every character is whitespace |
| Blank.BlankIffAllWhitespace | src/StringUtils/index.ts:54-55 | `isEmptyString` holds iff every character of the string is whitespace (so also for `""`) |
| Blank.BlankExamples | src/StringUtils/index.ts:54-55 | `""`, `"   "` and tab, line feed and ideographic space are blank |
| Blank.NonBlankExamples | src/StringUtils/index.ts:54-55 | `"a"` and `"  a "` are not blank |

## Left out

- Number arguments to `formatMoney` (`num.toString()` on a `number`): they depend on JavaScript's floating-point to string conversion (exponent forms such as `1e+21`, `NaN`, `Infinity`); only string arguments are modelled. Passing a non-negative integer up to 2^53 − 1 (`Number.MAX_SAFE_INTEGER`) behaves as passing its decimal digit string; above that, `toString` may print rounded digits padded with zeros.
- The `null`/`undefined` case of `!string` in `isEmptyString`: a Dafny string cannot be absent, so only the empty-string case of that operand remains.
- A general regular-expression engine: each pattern is written out by hand as predicates.
- UTF-16 surrogate pairs: one Dafny `char` stands for one UTF-16 code unit. A character outside the Basic Multilingual Plane counts as two units in JavaScript and as one `char` here, so such inputs can differ in length; no pattern accepts such a character at any position.
- Unicode data for `trim`: `IsWhitespace` is the fixed list of ECMAScript WhiteSpace and LineTerminator characters, with the category Zs characters listed explicitly.
- The check character of the identity number (ISO 7064 MOD 11-2): the source does not compute it, so neither does the model.
- The `export` block at the end of the file: it only re-exports the six functions.
