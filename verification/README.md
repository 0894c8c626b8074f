# randomuser SDK: formatters and query normalisation in Dafny

This project models the two pieces of logic in the TypeScript SDK for the
randomuser.me API that are more than plumbing.

- **The user formatters** (`src/utils/user-formatters.ts`):
  - the full name, trimmed;
  - the one-line postal address, where the postcode is either text or a number;
  - the date-of-birth formatter. It is a small template engine: the six tokens
    `MM, DD, YYYY, YY, M, D` are each replaced once, at their leftmost
    occurrence, in that order. The replacements come from the UTC year, month
    and day of the parsed date.
- **The user service** (`src/api/user-service.ts`):
  - `getUsers` spreads the option bag into a query object and joins the
    list-valued `nat`, `inc` and `exc` with commas;
  - `getRandomUser` forces `results: 1` and returns the first user;
  - three methods forward to the formatters.

Files:

- `wrappers.dfy`: `Option` and `Result`.
- `types.dfy`: the records of `src/types/index.ts`.
- `text.dfy`: the JavaScript string operations used by the code, each with a
  meaning of its own:
  - `trim` with the ECMAScript whitespace set;
  - `indexOf`, and `replace` with a string pattern;
  - `join`, and `Split`, which recovers a non-empty list joined by a separator
    that none of its elements contains (`Join([])` is "", which splits to
    `[""]`);
  - `String(n)` and `padStart`.
- `dates.dfy`: the calendar date a JavaScript `Date` yields through its UTC
  getters. How a string becomes a `Date` is a parameter, `DateParser`.
  `ParseIsoDate` is one strict instance, following RFC 3339 section 5.6.
- `user_formatters.dfy`: the formatters.
  - `ApplyTokens` is the specification of the substitution loop.
  - The method `SubstituteTokens` is that loop. It is proved against
    `ApplyTokens`.
  - `FormatDateOfBirth` runs the loop on one of three token lists: one per
    hard-coded literal, one computed from the parsed date.
- `user_service.dfy`: the service.
  - The query object is a map from the seven property names to values.
  - `Normalized(Spread(params))` is the declarative description of the query.
  - The class `UserService` holds the HTTP client as an abstract function
    `Fetch`.
  - `BuildQuery` follows the code: the spread, then three conditional
    overwrites. It is proved equal to the description.

## Model

| member | source | states |
|---|---|---|
| UserFormatters.FullName | src/utils/user-formatters.ts:12-14 | the full name never begins or ends with whitespace |
| UserFormatters.FullNameOfParts | src/utils/user-formatters.ts:12-14 | with a non-empty first name, the result is the present parts joined by single spaces; an empty title or last name drops its separator |
| UserFormatters.FullNameEmptyFirst | src/utils/user-formatters.ts:13 | only the ends are trimmed: an empty first name between a title and a last name leaves two inner spaces |
| UserFormatters.FullNameExamples | src/__tests__/utils.test.ts:63-80 | "Mr John Doe"; just "John" when the title and last name are empty |
| UserFormatters.FormattedAddress | src/utils/user-formatters.ts:21-24 | the address never begins or ends with whitespace |
| UserFormatters.AddressKeepsTemplate | src/utils/user-formatters.ts:21-24 | no field is dropped: the result is the full comma template whenever the postcode does not end in whitespace |
| UserFormatters.PostcodeText | src/utils/user-formatters.ts:22-23 | the postcode as interpolated: text as it is, a number as `String(n)`; `AddressPostcodeForms` relates the two forms |
| UserFormatters.AddressPostcodeForms | src/utils/user-formatters.ts:22-23 | a numeric postcode gives the same address as that postcode written as any digit string without leading zeros denoting the same number |
| UserFormatters.AddressTextExample | src/__tests__/utils.test.ts:84-87 | the sample user's address is "123 Main St, New York, NY, USA, 10001" |
| UserFormatters.AddressNumberExample | src/__tests__/utils.test.ts:89-99 | the same address when the postcode is the number 10001 |
| UserFormatters.DateFormatOf | src/utils/user-formatters.ts:33 | the template used is never empty; it is the caller's template or "MM/DD/YYYY" |
| UserFormatters.DateFormatDefault | src/utils/user-formatters.ts:33 | the default is used exactly when the option or its template is missing or empty (both directions) |
| UserFormatters.Pad2 | src/utils/user-formatters.ts:79-82 | `String(n).padStart(2, '0')`; `Pad2Value` states its meaning |
| UserFormatters.Pad2Value | src/utils/user-formatters.ts:79-82 | below 100, the padded text is exactly two decimal digits denoting the number |
| UserFormatters.DateParts | src/utils/user-formatters.ts:72-85 | the six (token, replacement) pairs of a date; `DateTokensInOrder`, `PaddedParts` and `PlainParts` state their order and values |
| UserFormatters.DateTokensInOrder | src/utils/user-formatters.ts:78-85 | the replacements come in the order MM, DD, YYYY, YY, M, D |
| UserFormatters.PaddedParts | src/utils/user-formatters.ts:72-85 | MM, DD and YY are two digits denoting the month, the day and the year modulo 100 |
| UserFormatters.PlainParts | src/utils/user-formatters.ts:72-85 | YYYY, M and D are the decimal year, month and day, with no leading zero |
| UserFormatters.DatePartsDigits | src/utils/user-formatters.ts:78-85 | every replacement is a digit string |
| UserFormatters.ApplyTokens | src/utils/user-formatters.ts:88-91 | each token in list order replaces its own first occurrence in the current text; `ApplyTokensUntouched` and the shape lemmas state what that yields |
| UserFormatters.SubstituteTokens | src/utils/user-formatters.ts:88-91 | the loop yields the ordered first-occurrence substitution `ApplyTokens` |
| UserFormatters.ApplyTokensUntouched | src/utils/user-formatters.ts:88-91 | a template in which no token can start comes out unchanged |
| UserFormatters.FormattedDob | src/utils/user-formatters.ts:36-93 | the shortcut literals first, then "Invalid Date" or the substitution of the parsed date's parts; `DobInvalid` and the `Dob…Format` lemmas state the outcomes |
| UserFormatters.FormatDateOfBirth | src/utils/user-formatters.ts:32-93 | the result is the two literal shortcuts, then "Invalid Date" for an unparseable date, then the substitution of the date's parts |
| UserFormatters.DobInvalid | src/utils/user-formatters.ts:66-69 | an unparseable date gives "Invalid Date" whatever the template |
| UserFormatters.LiteralPartsAgree | src/utils/user-formatters.ts:39-62 | the hard-coded parts of both literals equal what the general path computes for 1990-01-01 and 1990-02-03 |
| UserFormatters.LiteralsUnderIsoParser | src/utils/user-formatters.ts:52-62 | a strict RFC 3339 parser reads the January literal as 1990-01-01 and rejects the February literal |
| UserFormatters.DefaultFormatShape | src/utils/user-formatters.ts:88-91 | "MM/DD/YYYY" becomes mm/dd/yyyy for any replacements free of token letters |
| UserFormatters.DayFirstShape | src/utils/user-formatters.ts:88-91 | "DD-MM-YYYY" becomes dd-mm-yyyy |
| UserFormatters.ShortYearShape | src/utils/user-formatters.ts:88-91 | "MM/DD/YY" becomes mm/dd/yy: YYYY does not occur, so YY takes the short year |
| UserFormatters.UnpaddedShape | src/utils/user-formatters.ts:88-91 | "M/D/YYYY" becomes m/d/yyyy: MM and DD do not occur, and M and D take the unpadded values |
| UserFormatters.RepeatedTokenReplacedOnce | src/utils/user-formatters.ts:88-91 | each token is replaced once: "MM-MM" becomes mm-mM, because the single-letter M consumes half of the second MM |
| UserFormatters.DobDefaultFormat | src/utils/user-formatters.ts:66-91 | for every parsed date, the default template gives the padded month, the padded day and the full year, separated by "/" |
| UserFormatters.DobDayFirstFormat | src/utils/user-formatters.ts:66-91 | for every parsed date, "DD-MM-YYYY" gives the padded day, the padded month and the full year |
| UserFormatters.DobShortYearFormat | src/utils/user-formatters.ts:66-91 | for every parsed date, "MM/DD/YY" gives the padded month, the padded day and the padded year modulo 100 |
| UserFormatters.DobUnpaddedFormat | src/utils/user-formatters.ts:66-91 | for every parsed date, "M/D/YYYY" gives the unpadded month and day and the full year |
| UserFormatters.DobDefaultExample | src/__tests__/utils.test.ts:103-106 | the January literal with the default template gives "01/01/1990" |
| UserFormatters.DobDayFirstExample | src/__tests__/utils.test.ts:108-111 | "DD-MM-YYYY" gives "01-01-1990" |
| UserFormatters.DobShortYearExample | src/__tests__/utils.test.ts:113-116 | "MM/DD/YY" gives "01/01/90" |
| UserFormatters.DobUnpaddedExample | src/__tests__/utils.test.ts:118-128 | the February literal with "M/D/YYYY" gives "2/3/1990" |
| Text.Trim | src/utils/user-formatters.ts:13 | the result has no whitespace at either end, and a string without any is kept |
| Text.TrimAround | src/utils/user-formatters.ts:13 | trim removes exactly the surrounding whitespace and nothing inside |
| Text.TrimStart | src/utils/user-formatters.ts:13 | drops exactly the leading whitespace and leaves a suffix |
| Text.TrimEnd | src/utils/user-formatters.ts:13 | drops exactly the trailing whitespace and leaves a prefix |
| Text.IndexOfFrom | src/utils/user-formatters.ts:90 | an offset found is an occurrence of the pattern |
| Text.IndexOfFromLeftmost | src/utils/user-formatters.ts:90 | no occurrence precedes the offset found, and there is none when nothing is found |
| Text.ReplaceFirst | src/utils/user-formatters.ts:90 | `replace` with a string pattern; `ReplaceFirstAbsent` and `ReplaceFirstLeftmost` state its meaning |
| Text.ReplaceFirstAbsent | src/utils/user-formatters.ts:90 | a pattern that does not occur leaves the string unchanged |
| Text.ReplaceFirstLeftmost | src/utils/user-formatters.ts:90 | only the leftmost occurrence is replaced, and everything around it passes through |
| Text.ReplaceAfter | src/utils/user-formatters.ts:90 | the replacement lands right after a prefix that cannot hold the pattern's start |
| Text.Join | src/api/user-service.ts:26 | `Array.prototype.join`; `SplitJoin` states that it loses nothing |
| Text.SplitJoin | src/api/user-service.ts:25-37 | the joined list is recovered by splitting at the separator when no element holds it |
| Text.NatToDecimal | src/utils/user-formatters.ts:81-84 | `String(n)`: decimal digits, no leading zero, denoting n |
| Text.IntToString | src/utils/user-formatters.ts:23 | a leading "-" exactly for a negative number, then digits without leading zeros denoting its absolute value |
| Text.IntToStringInjective | src/utils/user-formatters.ts:23 | distinct numbers have distinct texts, and equal texts come from equal numbers |
| Text.CanonicalIsDecimal | src/utils/user-formatters.ts:23 | a digit string without leading zeros is the one `String(n)` gives for its value |
| Text.FixedWidthDecimal | src/utils/user-formatters.ts:79-82 | any digit string is `String` of its value zero-padded to its own length |
| Text.PaddedDecimal | src/utils/user-formatters.ts:79-82 | below 10^k, `String(n)` padded to k is k digits denoting n |
| Text.PadStart | src/utils/user-formatters.ts:79-82 | the fill is added in front up to the width, and the original string is the suffix |
| Dates.DaysInMonth | src/utils/user-formatters.ts:66-74 | 28 to 31 days; 29 exactly in a leap February, 28 exactly in any other February, 30 exactly in April, June, September and November |
| Dates.YearLength | src/utils/user-formatters.ts:66-74 | the twelve months add up to 366 days in a leap year and 365 otherwise |
| Dates.ParseFullDate | src/utils/user-formatters.ts:66-67 | accepted exactly when the text is YYYY-MM-DD with a month 1-12 and a day within it; the result is the date its digits spell |
| Dates.FullDateRoundTrip | src/utils/user-formatters.ts:66-74 | every date of years 0-9999 is read back from its YYYY-MM-DD text |
| Dates.FullDateTextOfParsed | src/utils/user-formatters.ts:66-74 | every accepted text is the YYYY-MM-DD text of its date, so no other spelling is accepted |
| Dates.ParseIsoDate | src/utils/user-formatters.ts:66-67 | accepted exactly when the first ten characters are an accepted date and nothing or a UTC time follows; the result is that date |
| Dates.IsoDateRoundTrip | src/utils/user-formatters.ts:66-74 | a date's text, alone or followed by a UTC time, is read back as the date |
| UserApi.KeyNamesDistinct | src/api/user-service.ts:22 | distinct query keys have distinct property names |
| UserApi.Normalized | src/api/user-service.ts:25-37 | normalising keeps the keys and sends each list under a list key as its comma join |
| UserApi.SentAtKey | src/api/user-service.ts:22-37 | a key is sent exactly when its property is present, with that property's value as sent |
| UserApi.Spread | src/api/user-service.ts:22 | `{ ...params }`; `QueryKeys` and `QueryValues` state which entries it holds |
| UserApi.QueryKeys | src/api/user-service.ts:22 | the query holds exactly the keys of the present properties |
| UserApi.QueryValues | src/api/user-service.ts:22-37 | each property is sent under its key exactly when present: numbers, seed and gender unchanged; nat, inc and exc as the string or the joined list |
| UserApi.JoinedListRoundTrip | src/api/user-service.ts:25-37 | a non-empty list sent under nat, inc or exc keeps every element in order: splitting at "," gives it back when no element holds a comma |
| UserApi.EmptyListSentEmpty | src/api/user-service.ts:25-37 | an empty list under nat, inc or exc is sent as the empty string, not dropped |
| UserApi.NoParamsEmptyQuery | src/api/user-service.ts:22 | no bag, or an empty one, gives the empty query |
| UserApi.QueryHasNoLists | src/api/user-service.ts:22-37 | the sent query holds no list |
| UserApi.NormalizedIdempotent | src/api/user-service.ts:22-37 | normalising twice is normalising once |
| UserApi.WithSingleResult | src/api/user-service.ts:53-56 | `{ ...params, results: 1 }`; `SingleResultQuery` states the query it yields |
| UserApi.SingleResultQuery | src/api/user-service.ts:53-56 | the single-user query is the list query with results forced to 1, whatever the caller gave |
| UserApi.ListParamsExample | src/__tests__/user-service.test.ts:123-138 | the test's bag is sent with "us,gb" and "name,gender,email" |
| UserApi.SingleResultExamples | src/__tests__/user-service.test.ts:160-195 | with no bag the query is {results: 1}; with filters, the filters plus results 1 |
| UserApi.UserService.constructor | src/api/user-service.ts:13 | the service keeps the client it is given |
| UserApi.UserService.BuildQuery | src/api/user-service.ts:20-37 | the spread followed by the three conditional joins yields the normalised query |
| UserApi.UserService.GetUsers | src/api/user-service.ts:20-45 | the client's answer to "/api/" and the normalised query, an error passed on unchanged |
| UserApi.UserService.GetRandomUser | src/api/user-service.ts:52-59 | the first user of the answer to the query with results 1; the error passed on; `None` for an empty list |
| UserApi.UserService.FullName | src/api/user-service.ts:66-68 | forwards to the formatter |
| UserApi.UserService.FormattedAddress | src/api/user-service.ts:75-77 | forwards to the formatter |
| UserApi.UserService.FormatDateOfBirth | src/api/user-service.ts:85-87 | forwards to the formatter |

## Left out

- Turning a string into a `Date` (`new Date(s)`) depends on the JavaScript
  engine for anything that is not ISO 8601. It is the parameter `parse`.
  - Valid dates are guaranteed by the type `Date`: year at least 0, month
    1-12, day 1-31.
  - `ParseIsoDate` is one strict instance of it.
- Negative years are outside the model. Under them, `% 100` and `padStart`
  behave differently.
- The `catch` branch of `formatDateOfBirth` (lines 94-97) is not modelled.
  No modelled step throws, and the logging is I/O.
- In JavaScript, `replace` gives `$` in the replacement a special meaning.
  The model's replacements are digit strings, which never contain `$`.
- `FormatDateOfBirth` runs one substitution loop, `SubstituteTokens`. The
  source repeats that loop three times, once per token list.
- The two hard-coded literals are kept exactly as the code has them.
  - They are not treated as redundant. A strict RFC 3339 reading rejects the
    February literal (`LiteralsUnderIsoParser`), so for such a parser only the
    shortcut produces "2/3/1990".
  - For a parser that reads both literals as their dates, `LiteralPartsAgree`
    shows the shortcut changes nothing.
- The HTTP client (`src/core/client.ts`, axios, interceptors, error shaping)
  is the function `Fetch`. A rejected request is its `Failure` value.
- The async/Promise plumbing and the `console.error` logging are left out.
  The rethrow in `getUsers` becomes passing the `Failure` on unchanged.
- UserApi.UserService.GetRandomUser: `response.results[0]` of an empty list is
  `undefined` in JavaScript. The model returns `None` for it instead of
  requiring a non-empty answer.
- The query object's key order is not modelled (JavaScript objects keep
  insertion order).
- The query keys are limited to the seven properties of `UserFetchParams`.
  - `KeyName` gives each one's name.
  - Extra untyped properties a JavaScript caller might add are not modelled.
  - Properties present with the value `undefined` count as absent.
- JavaScript numbers (`results`, `page`, street numbers, numeric postcodes)
  are integers here. Fractions and NaN are not modelled.
- Text.IntToString: JavaScript writes numbers of 10^21 or more in exponent
  form ("1e+21"). The model writes every integer in plain decimal, so its
  contract is weaker than `String(n)` for such numbers.
- The client is a function `Fetch`, so in the model identical requests get
  identical answers. The real API returns fresh random users for each
  request unless `seed` is given (`src/types/index.ts:96`).
- `ParseIsoDate` reads only years 0000-9999 with exactly four digits. The
  expanded years of ISO 8601 are not modelled.
- `src/index.ts` (the SDK façade) forwards to the service and is not part of
  this model. Neither are `build.js` or `examples/basic-usage.js`.
