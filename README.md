# Registration form: country lookups and submission rules

This project models the data logic of a single-page business registration
form (`src/app/page.tsx`). The form collects an economic activity, a phone
dial code and number, an address and a country of origin. Two
autocomplete selectors look countries up in an external country directory:

- the phone-code selector keeps the countries whose common name or dial code
  contains the query;
- the country-of-origin selector keeps the countries whose common name
  contains the query.

A declarative schema decides whether the form may be submitted.

The model is pure: datatypes, functions and lemmas over sequences.

- `Text` holds ASCII lower-casing (`Lower`) and substring search
  (`Contains`), which stand for `toLowerCase` and `includes`. `Contains` is
  proved equal to an index-based reading of an occurrence.
- `Sequences` holds `Filter`, which stands for `Array.prototype.filter`, and a
  subsequence relation. A filter is characterised completely: it is a
  subsequence of its input, and it holds every satisfying element exactly as
  often as the input does and no other element.
- `CountryDirectory` holds the country record, the dial code, the two
  lookups and their properties. The network fetch and the JSON parse are an
  input, `Directory`: either `Loaded(records)` or `Failed`.
- `RegistrationForm` holds the form values, the per-field rules, the
  submission gate and the two selector change handlers that transform a
  selection.

Design choices:

- Lower-casing is ASCII only. `'A'..'Z'` map to `'a'..'z'`; every other
  character is left unchanged.
- The Yup schema at lines 83-101 is encoded as rules, not as Yup.
  - The schema also requires each selected activity to have a non-empty
    `value` and `label` (lines 84-90). The model keeps that rule.
  - `label` is a reserved word in Dafny, so the activity choice names that
    field `caption`.
- Because the source uses `||` for its defaults, a root or first suffix
  that is present but empty also contributes `""`. This is the same result
  as an absent one.

## Model

| member | source | states |
|---|---|---|
| `Text.Lower` | src/app/page.tsx:168-171 | lower-casing keeps the length, turns each upper-case ASCII letter into its lower-case counterpart (code point plus 32), leaves no upper-case letter and changes no other character |
| `Text.Contains` | src/app/page.tsx:173-174 | `includes`: the needle is a prefix of the haystack or of one of its suffixes; a needle that is found is no longer than the haystack |
| `Text.ContainsIff` | src/app/page.tsx:172-175 | `includes` holds exactly when the needle occurs at some index of the haystack |
| `Text.ContainsEmpty` | src/app/page.tsx:171-174 | every string includes the empty string, so the empty query matches every record |
| `Sequences.Filter` | src/app/page.tsx:166-176 | the filter is no longer than its input and holds only input elements that satisfy the predicate |
| `Sequences.FilterMembership` | src/app/page.tsx:166-176 | an element is in the filter exactly when it is in the input and satisfies the predicate |
| `Sequences.FilterCount` | src/app/page.tsx:196-201 | the filter holds each satisfying element as often as the input and every other element zero times |
| `Sequences.FilterIsSubsequence` | src/app/page.tsx:196-201 | the filter keeps the input order: it is a subsequence of the input |
| `Sequences.FilterAll` | src/app/page.tsx:197-201 | a predicate that every element satisfies keeps the whole sequence |
| `Sequences.FilterMonotone` | src/app/page.tsx:167-176 | a predicate implied by another keeps a super-sequence of the other's filter, in the same order |
| `CountryDirectory.Root` | src/app/page.tsx:169-170 | the root when `idd` and its root are present, `""` otherwise |
| `CountryDirectory.FirstSuffix` | src/app/page.tsx:179-183 | the first suffix when `idd` has a non-empty suffix list, `""` otherwise |
| `CountryDirectory.DialCode` | src/app/page.tsx:169-170 | the dial code starts with the root and continues with exactly the first suffix |
| `CountryDirectory.NameMatches` | src/app/page.tsx:198-200 | the lower-cased common name includes the lower-cased query; the empty query matches every record |
| `CountryDirectory.PhoneCodeMatches` | src/app/page.tsx:167-175 | a name match, or the dial code (not lower-cased) includes the lower-cased query; every name match is a phone-code match, and without a dial code only name matches are |
| `CountryDirectory.ToPhoneCodeOption` | src/app/page.tsx:177-184 | the option's value and code agree and are the record's dial code; its flag is the record's flag |
| `CountryDirectory.ToCountryOption` | src/app/page.tsx:202-206 | the option's value is the record's common name and its flag the record's flag |
| `CountryDirectory.PhoneCodeMatching` | src/app/page.tsx:166-176 | the records kept for the phone-code selector are no more than the directory's and are exactly the directory's phone-code matches |
| `CountryDirectory.CountryMatching` | src/app/page.tsx:196-201 | the records kept for the country selector are no more than the directory's and are exactly the directory's name matches |
| `CountryDirectory.DialCodeDefaults` | src/app/page.tsx:169-170 | the dial code is the root followed by the first suffix; an absent `idd`, root or suffix list, or an empty suffix list, each contribute `""` |
| `CountryDirectory.LoadCountryPhoneCodeOptions` | src/app/page.tsx:161-189 | a failed directory yields `[]`; a loaded one yields at most one option per record |
| `CountryDirectory.LoadCountryOptions` | src/app/page.tsx:191-211 | a failed directory yields `[]`; a loaded one yields at most one option per record |
| `CountryDirectory.PhoneCodeLookupSpec` | src/app/page.tsx:166-184 | the phone-code lookup keeps exactly the records matching by name or by (not lower-cased) dial code, in order and with their multiplicity; the i-th option has value and code equal to the i-th kept record's dial code and its flag |
| `CountryDirectory.CountryLookupSpec` | src/app/page.tsx:196-206 | the country lookup keeps exactly the records matching by name, in order and with their multiplicity; the i-th option has the i-th kept record's common name as value and its flag |
| `CountryDirectory.PhoneCodeOptionsFromRecords` | src/app/page.tsx:177-184 | every phone-code option has value equal to code and comes from a matching record; every matching record yields its option |
| `CountryDirectory.CountryOptionsFromRecords` | src/app/page.tsx:202-206 | every country option comes from a name-matching record; every such record yields its option |
| `CountryDirectory.CountryMatchesArePhoneCodeMatches` | src/app/page.tsx:172-174 | the records the country lookup keeps are a subsequence of those the phone-code lookup keeps for the same query |
| `CountryDirectory.EmptyDialCodeMatch` | src/app/page.tsx:169-174 | a record with an empty dial code is kept by the phone-code lookup exactly on a name match or for the empty query |
| `CountryDirectory.EmptyQueryKeepsAll` | src/app/page.tsx:171-174 | with the empty query both lookups keep every record, so both return one option per record |
| `CountryDirectory.FailureYieldsNothing` | src/app/page.tsx:185-188 | a failed fetch or parse gives the empty list in both lookups (also lines 207-210) |
| `CountryDirectory.ColombiaDialCode` | src/app/page.tsx:169-170 | root "+5" and suffixes ["7"] give the dial code "+57" |
| `CountryDirectory.ColombiaNameMatches` | src/app/page.tsx:198-200 | "CO" matches the name "Colombia" case-insensitively; "57" does not |
| `CountryDirectory.ColombiaMatches` | src/app/page.tsx:172-175 | "57" keeps Colombia in the phone-code lookup through its dial code alone |
| `CountryDirectory.ColombiaLookups` | src/app/page.tsx:166-184 | on a directory holding only Colombia, "57" gives one phone-code option `+57` and no country option |
| `RegistrationForm.ActivityOptions` | src/app/page.tsx:55-59 | the static activity table has three entries, each with a non-empty value and label |
| `RegistrationForm.InitialValues` | src/app/page.tsx:120-127 | the form starts with no activity, phone, address or country, and with the phone code "+57" |
| `RegistrationForm.PhoneCodeField.Code` | src/app/page.tsx:95 | the code the phone-code rule reads: the selected option's code, or `""` after a clear (line 246) |
| `RegistrationForm.FieldValid` | src/app/page.tsx:84-100 | the rule of each field: at least one activity, each with value and label non-empty; phone code, phone, address and country non-empty |
| `RegistrationForm.IsValid` | src/app/page.tsx:83-101 | the submission gate holds exactly when the rule of every field holds |
| `RegistrationForm.Errors` | src/app/page.tsx:83-101 | a field is reported exactly when its rule fails |
| `RegistrationForm.Message` | src/app/page.tsx:91-100 | every field's failure message is non-empty |
| `RegistrationForm.ValidIffNoErrors` | src/app/page.tsx:83-101 | the submission gate (at least one activity, each with value and label; phone code, phone, address and country non-empty) holds exactly when no field is reported |
| `RegistrationForm.OnPhoneCodeChange` | src/app/page.tsx:245-247 | the phone code becomes the selected option's code, or `""` when the selection is cleared; no other field changes |
| `RegistrationForm.OnCountryChange` | src/app/page.tsx:313-315 | the country becomes the selected option's value, or `""` when the selection is cleared; no other field changes |
| `RegistrationForm.ClearedPhoneCodeFails` | src/app/page.tsx:246 | clearing the phone-code selector makes the phone-code rule fail and blocks submission |
| `RegistrationForm.LookedUpPhoneCodePasses` | src/app/page.tsx:95 | a phone-code option from the lookup passes exactly when its record's dial code is non-empty |
| `RegistrationForm.CountrySelectionRule` | src/app/page.tsx:315 | clearing the country selector fails its rule; a looked-up country passes exactly when its common name is non-empty |
| `RegistrationForm.ActivityChoicesPass` | src/app/page.tsx:55-59 | any non-empty selection from the static activity table satisfies the activity rule |
| `RegistrationForm.InitialValuesErrors` | src/app/page.tsx:120-127 | the starting values fail on activities, phone, address and country; only the pre-filled "+57" phone code passes |
| `RegistrationForm.CompleteValuesPass` | src/app/page.tsx:83-101 | values that fill every field (one activity, "+57", a phone, an address, "Colombia") pass every rule |

## Left out

- The directory fetch (`fetch` of the country endpoint and `response.json()`) is network I/O. It is the `Directory` input: `Loaded(records)` for a parsed array, `Failed` for any exception raised inside the `try`.
- A parsed record without `name.common` makes the filter throw, and the `catch` then returns `[]`. A kept record without `flags` makes the map throw in the same way. The model's `Country` always carries both, and such a response counts as `Failed`.
- `Text.Lower`: models `toLowerCase` on ASCII only. Full Unicode lower-casing can change other letters and even the length of a string.
- JavaScript strings are sequences of UTF-16 code units. The model uses Dafny characters.
- `console.log`, `console.error` and `alert` are side-effect output only. For the same reason the submission summary that `handleSubmit` writes is not modelled.
- The rendered labels are UI: `countryItem`, `formatOptionLabel`, `formatCountryOptionLabel`, the options' `label` field, `customStyles` and the JSX tree.
- Formik's state machine is a foreign library: `useFormik`, `setFieldValue`, `setFieldTouched`, the touched/error display conditions and the plain input handlers. Only the value transformations of the two async selectors (lines 246 and 315) are modelled.
- The `AsyncSelect` caching and default options are library behaviour, and the missing cancellation of stale in-flight lookups is concurrency. Neither is modelled. Both lookups are functions, so the same query on the same directory always gives the same result.
- `RegistrationForm.Message`: gives the schema's own messages. The message Yup generates by default for an activity with an empty value or label is not modelled.
- The activity single choice (`activityEconomics`) has no rule in the schema, and the model checks nothing about it.
