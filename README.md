# Identity-document matching check, modelled in Dafny

The system checks that a person's registered identity (first name, last name, birth date)
agrees with the identity that a third-party document asserts. It has two pure parts, and
this project models both:

- **The matching predicate** (`Domain.DoesPersonMatchDocument`). It runs four guards in a
  fixed short-circuit order: first name (the document's first name must *start with* the
  person's), last name (exact), the official register (an injected `string -> bool`, asked
  about the person's `firstName + " " + lastName`), and birth date. The first failing guard
  gives `Invalid`; `Valid` needs all four.
- **The anti-corruption layer** (`Repository`). It holds the provider payload shapes, the
  IDNow integrity check (only `ID` documents pass; `IBAN` and `CHEQUE` raise an error), the
  first-space name split, the `Y-M-D` birth-date parser, and the converters for the IDNow,
  alternate-provider and local-store payloads. It also holds the check-then-convert pipelines
  as functions of the response already fetched.

In the source, JavaScript runtime failures become values of `Result<_, AdapterError>` in the
model. The JavaScript built-ins the adapters use are modelled in `StringOps`:
`split` with a one-character separator, `startsWith`, `parseInt` on digit strings, and
`toString` on natural numbers.

Files: `wrappers.dfy` (Option/Result/Outcome), `types.dfy` (canonical records),
`string_ops.dfy`, `domain.dfy`, `domain_scenarios.dfy` (the matcher's unit-test scenarios),
`repository.dfy`, `adapter_scenarios.dfy` (the sample IDNow payload, and adapters composed with
the matcher), `reference_birth_date.dfy` (birth dates compared by reference, as the source
does; see Findings).

Modelling choices:
- **Birth-date comparison.** The source compares birth dates with `!==`, which is object
  identity in TypeScript. The main model uses a value datatype `BirthDate` with structural
  equality. This is what the tests at src/__tests__/domain.test.ts:117-151 intend: they change a single field of the date and expect `invalid`. This differs from
  the source as written. `ReferenceBirthDate` models the source's reading with a class, and
  proves how the two readings relate (see Findings).
- **The register** is a function-valued field of `Dependencies`. The mock register of the
  source is not modelled. The model proves properties for every register function.

## Model

| member | source | states |
|---|---|---|
| `StringOps.Split` | src/repository.ts:149-155 | `split(" ")` always gives at least one part; no part contains the separator; joining the parts with the separator gives back the input |
| `StringOps.SplitUnique` | src/repository.ts:149-155 | the separator-free parts whose join is `s` are exactly `Split(s)`, so splitting inverts joining |
| `StringOps.SplitWithoutSeparator` | src/repository.ts:149-151 | a string with no separator splits into itself alone |
| `StringOps.SplitAtFirstSeparator` | src/repository.ts:149-155 | when `a` has no separator, `a + sep + b` splits into `a` followed by the parts of `b` |
| `StringOps.JoinHead` | src/repository.ts:149-155 | the first part is a prefix of the joined string; it is followed by the separator exactly when more parts follow |
| `StringOps.StartsWith` | src/domain.ts:4-6 | `startsWith(prefix)` holds iff the string is `prefix` followed by its own remainder |
| `StringOps.ParseInt` | src/repository.ts:158 | `parseInt` is defined here exactly on non-empty all-digit segments |
| `StringOps.NatToString` | src/repository.ts:179 | `toString` of a natural number gives decimal digits that parse back to the number, with no leading zero (`"0"` is the only string starting with `0`) |
| `StringOps.LeadingZeroIgnored` | src/repository.ts:158 | a leading `0` does not change the parsed value |
| `Domain.FirstNamesMatch` | src/domain.ts:4-6 | the first names match iff the document's first name is the person's followed by some further text |
| `Domain.FullName` | src/domain.ts:21 | the register's argument is the person's first name, one space, then the last name |
| `Domain.DoesPersonMatchDocument` | src/domain.ts:8-30 | the four guards in order; `Valid` iff the document's first name starts with the person's, the last names are equal, the register accepts the person's full name and the birth dates are equal |
| `Domain.FirstNameNotPrefixRejects` | src/domain.ts:13-15 | a document first name that does not start with the person's gives `Invalid` |
| `Domain.FirstNamesMatchBothWaysOnlyIfEqual` | src/domain.ts:4-6 | the prefix test holds both ways only for equal names, so it is asymmetric |
| `Domain.LastNameMismatchRejects` | src/domain.ts:17-19 | different last names give `Invalid` |
| `Domain.NameMismatchIgnoresRegister` | src/domain.ts:13-23 | if a name check fails, the result is `Invalid` for every register, so the register is never consulted |
| `Domain.RegisterSeesOnlyPersonFullName` | src/domain.ts:21-23 | two registers that agree on the person's full name give the same verdict, so the document's name is never looked up |
| `Domain.RegisterRefusalRejects` | src/domain.ts:21-23 | a register refusal of the person's full name gives `Invalid` even when every document field matches |
| `Domain.BirthDateMismatchRejects` | src/domain.ts:25-27 | a birth date differing in day, month or year gives `Invalid` |
| `Domain.DocumentIdIgnored` | src/domain.ts:8-30 | the verdict does not depend on the document's `id` |
| `Domain.DocumentOfSamePersonMatches` | src/domain.ts:13-29 | a document embedding the person unchanged is `Valid` iff the register accepts the person's full name |
| `Domain.FullerDocumentFirstNameAccepted` | src/domain.ts:4-6 | a document first name extending the person's gets the same verdict as the person's own first name |
| `DomainScenarios.AllFieldsMatchIsValid` | src/__tests__/domain.test.ts:29-39 | Jane Doe against her own document is `Valid` |
| `DomainScenarios.LongerPersonFirstNameIsInvalid` | src/__tests__/domain.test.ts:42-55 | person "Janet" against document "Jane" is `Invalid` |
| `DomainScenarios.AdditionalDocumentFirstNameIsValid` | src/__tests__/domain.test.ts:57-73 | person "Jane" against document "Jane Michelle" is `Valid` |
| `DomainScenarios.DifferentLastNameIsInvalid` | src/__tests__/domain.test.ts:77-90 | last name "Doolittle" against "Doe" is `Invalid` |
| `DomainScenarios.RegisterRefusalIsInvalid` | src/__tests__/domain.test.ts:94-113 | a register refusing "Janne Doe" makes a fully matching document `Invalid` |
| `DomainScenarios.DifferentBirthDayIsInvalid` | src/__tests__/domain.test.ts:117-133 | day 31 against day 1 is `Invalid` |
| `DomainScenarios.CharacterPrefixOfFirstNameIsValid` | src/domain.ts:4-6 | the prefix works on characters, so person "Jan" is `Valid` against document "Jane" |
| `Repository.CheckDocumentIsId` | src/repository.ts:138-143 | passes iff the type is `ID`; `IBAN` and `CHEQUE` fail with the document-type error |
| `Repository.ExtractFirstName` | src/repository.ts:149-151 | the result is the prefix of the name up to the first space, or the whole name if it has no space |
| `Repository.ExtractLastName` | src/repository.ts:153-155 | present iff the name has a space; then it is the space-free text after the first space, up to the next space or the end |
| `Repository.TwoTokenNameRoundTrip` | src/repository.ts:149-155 | for space-free `a` and `b`, `a + " " + b` gives back first name `a` and last name `b` |
| `Repository.FurtherNameTokensDropped` | src/repository.ts:153-155 | a third and later token never reaches the last name |
| `Repository.ConvertBirthdate` | src/repository.ts:157-160 | a parsed date has non-negative fields; the only failure is the malformed-date error |
| `Repository.BirthdateFromSegments` | src/repository.ts:157-160 | for `Y-M-D` with all-digit segments: year from segment 0, month from segment 1, day from segment 2 |
| `Repository.BirthdateExtraSegmentsIgnored` | src/repository.ts:157-160 | segments after the third do not change the result |
| `Repository.BirthdateRoundTrip` | src/repository.ts:157-160 | a date written as `Y-M-D` in decimal parses back to the same date |
| `Repository.BirthdateWithoutDashRejected` | src/repository.ts:157-160 | a string without a dash is a malformed date |
| `Repository.BirthdateWithTwoSegmentsRejected` | src/repository.ts:157-160 | a date `Y-M` with only two segments is a malformed date |
| `Repository.BirthdateWithNonDigitSegmentRejected` | src/repository.ts:157-160 | a segment that is not all digits makes the date malformed |
| `Repository.ConvertIdNowResponseToDomainDocument` | src/repository.ts:162-173 | succeeds iff `lastReport` is present, `persons` is non-empty, `persons[0]`'s name has a space and its date parses; fails with the missing-person error, else the missing-last-name error, else the malformed-date error; on success `id` is `uid` and the person comes from `persons[0]` via the split rule and the date parser |
| `Repository.OnlyFirstReportedPersonRead` | src/repository.ts:163 | responses that agree on `uid` and on `persons[0]` convert identically |
| `Repository.IdNowConversionOfWellFormedPerson` | src/repository.ts:200-209 | an `ID` response for a two-token name and a `Y-M-D` date yields exactly those names and that date |
| `Repository.ConvertOtherProviderResponseToDomainDocument` | src/repository.ts:175-186 | succeeds iff the name has a space; `id` is the canonical decimal string of the numeric id (no leading zero); names come from the split rule; the birth date passes through unchanged |
| `Repository.ConvertDbPersonToDomainPerson` | src/repository.ts:188-194 | `first_name`, `last_name`, `birth_date` become `firstName`, `lastName`, `birthDate` unchanged |
| `Repository.DbPersonConversionInjective` | src/repository.ts:188-194 | distinct store rows give distinct persons, so the rename is lossless |
| `Repository.FetchIdentityDocumentByIdNow` | src/repository.ts:200-209 | a non-`ID` response always yields the document-type error, before any conversion; an `ID` response yields its conversion |
| `Repository.FetchIdentityDocumentByOtherProvider` | src/repository.ts:211-217 | there is no type gate: the result is exactly the conversion of the response, whose only failure is the missing last name |
| `AdapterScenarios.SampleIdNowResponseConverts` | src/repository.ts:64-79 | the sample "Jane Doe" / "1990-01-01" `ID` payload yields `{Jane, Doe, day 1, month 1, year 1990}` |
| `AdapterScenarios.NonIdSampleRejected` | src/repository.ts:138-143 | the same payload typed `IBAN` or `CHEQUE` yields the error, never a document |
| `AdapterScenarios.IdNowDocumentOfStoredPersonMatches` | src/repository.ts:200-225 | a stored person and an IDNow document with the same two-token name and the same date, written `Y-M-D` with any digit strings (zero-padded included), match iff the register accepts the name |
| `AdapterScenarios.SampleIdNowResponseMatchesStoredPerson` | src/repository.ts:64-79 | the sample "Jane Doe" / "1990-01-01" payload matches a stored Jane Doe born 1/1/1990 iff the register accepts "Jane Doe" |
| `AdapterScenarios.OtherProviderDocumentOfStoredPersonMatches` | src/repository.ts:211-225 | a stored person and an alternate-provider document with the same name and date match iff the register accepts the name |
| `ReferenceBirthDate.DoesPersonMatchDocumentAsWritten` | src/domain.ts:8-30 | the same four guards with the birth dates compared as object references; `Valid` iff the three other guards pass and both sides hold the same date object |
| `ReferenceBirthDate.AsWrittenAgreesOnSharedBirthDate` | src/domain.ts:25-27 | when both sides share one birth-date object, the reference reading and the value reading agree |
| `ReferenceBirthDate.AsWrittenValidImpliesValueValid` | src/domain.ts:25-27 | whatever the reference reading accepts, the value reading accepts |
| `ReferenceBirthDate.AsWrittenRejectsDistinctObjects` | src/domain.ts:25-27 | distinct birth-date objects are `Invalid` as written, even with equal fields |
| `ReferenceBirthDate.EqualDatesInDistinctObjects` | src/domain.ts:25-27 | on equal dates in distinct objects, the source's reading gives `Invalid` and the value reading gives `Valid` |
| `ReferenceBirthDate.ConvertIdNowResponseAsWritten` | src/repository.ts:157-173 | the IDNow conversion allocates a fresh birth-date object whose fields are the value model's |
| `ReferenceBirthDate.MatchStoredPersonAgainstIdNowAsWritten` | src/repository.ts:200-209 | as written, a previously existing person never matches a converted IDNow document |

## Findings

| source | as written | input that shows it | evidently intended | confidence | as-written member | corrected member |
|---|---|---|---|---|---|---|
| src/domain.ts:25 | `person.birthDate !== identityDocument.person.birthDate` compares object identity | "Jane Doe" born 1/1/1990 on both sides, each date its own object, register accepting: result `invalid` | compare day, month and year (the tests check field changes; on a live request the person's date object comes from the store row and the document's from a different fetch, either a new object built by the date parser or the provider payload's own object, so a live document could never match) | high; not executed | `ReferenceBirthDate.EqualDatesInDistinctObjects` | `Domain.DocumentOfSamePersonMatches` |

## Left out

- The async fetch orchestration and the provider-keyed dispatch table in src/api.ts: this is I/O wiring with no logic of its own.
- The mock fetchers, the mock register and the dependency builder in src/repository.ts: they stand in for network and database calls. The register is modelled only as an arbitrary function parameter.
- `fetchPerson`'s lookup of the document row and then the person row: this is I/O. Only its conversion, `Repository.ConvertDbPersonToDomainPerson`, is modelled.
- `Repository.ExtractLastName`: for a name without a space, the source returns `undefined` and does not throw. A document built from it has an undefined last name, which the matcher then rejects (no string strictly equals `undefined`). The model's `Person` has no undefined last name, so the converters report `MissingLastName` instead.
- `Repository.ConvertBirthdate`: `parseInt` is modelled only on non-empty all-digit segments. The model reports `MalformedBirthDate` on every other date, where the source behaves as follows. An empty segment, or one with no leading digit, gives `NaN`. A missing segment (fewer than three) gives `undefined`. A segment such as `"1a"` gives its leading digits (1). Leading whitespace, a `+` sign or a `0x` prefix gives a full number (`" 5"` gives 5, `"0x1A"` gives 26). A minus sign cannot occur inside a segment, because the date is split on `-`.
- `Repository.ConvertOtherProviderResponseToDomainDocument`: the numeric id is a natural number. Negative and fractional ids, and their `toString` forms, are not modelled.
- `Repository.ConvertOtherProviderResponseToDomainDocument`: JavaScript numbers are 64-bit floats, and the model's numbers are exact. Ids above 2^53 cannot be held exactly in the source, and `toString` gives exponent notation (`"1e+21"`) from 10^21 on, where `NatToString` gives all the digits.
- `Repository.ConvertBirthdate`: on a digit segment above 2^53, `parseInt` returns a rounded float, where the model's `ParseDecimal` is exact.
- In the source, `IdDocument.person` and the pass-through birth dates are shared references. The main model treats them as values. Only `ReferenceBirthDate` models object identity, and only for the birth date.
