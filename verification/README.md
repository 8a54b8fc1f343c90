# Employee profile and photo service — a Dafny model

The service exposes two endpoints per employee, `/<employee_id>/profile` and
`/<employee_id>/photo`. Each answers GET and POST, and each sits behind a
bearer-token gate. A profile is a JSON record that is checked against
`EmployeeProfileSchema` and then kept in a record table keyed by
`EmployeeID`. A photo is a blob kept in an object bucket under
`"<employee_id>.jpg"`, and its public URL is written into the profile's
`PhotoURL`.

This project models the decision logic as pure functions over immutable
values:

- `optional.dfy`: the `Option` type.
- `decimal.dfy`: `str(n)` and `int(s)` for natural numbers. Photo keys depend on this text, and so does the seven-digit ID rule.
- `calendar.dfy`: `strptime(value, "%Y-%m-%d").date()`, which is the `StartDate` field's parse, together with its canonical inverse `isoformat`.
- `schema.dfy`: `EmployeeProfileSchema().load(data)`, which returns the deserialised profile or the messages keyed by field name.
- `stores.dfy`: the three external stores as values. These are the credentials table (a token set, or unreachable), the record table (`map<nat, Item>`) and the object bucket (`map<string, seq<byte>>`). One `Access` flag stands for the single storage session whose credentials may be missing. The file also holds the photo key and URL, and the `update_item` upsert.
- `gate.dfy`: `token_required` and `validate_token`.
- `routes.dfy`: the four handlers as transitions `(request, state) -> Step(response, state')`, and `Handle`, which runs the gate before the handler.
- `properties.dfy`: properties that span several requests.

The schema's `EmployeeID` check is a parameter, `IdRule`. `AsWritten` is the
condition in the code. `SevenDigits` is the rule the condition was meant to
be (see Findings). The validator, `CreateProfile`, `Handle` and every route
property that takes a rule hold for both rules. The other handlers do not
validate and take no rule. `PathIdNeverRejectedAsWritten` is about the
as-written rule only.

Behaviour of the code worth noting:

- Names may be empty strings.
- Keys the schema does not declare are refused with "Unknown field." under that key. This is marshmallow 3's default `unknown = RAISE`.
- `strptime` also accepts month and day without zero padding, and a day padded with a space (`"2024-1-5"`, `"2024-01- 5"`).
- The 500 answers can never reach a client. The credentials table goes through the same storage session as the record table and the bucket. So when that session has no credentials, the gate's scan fails first, and the gate fails closed with 401.
- Errors from the stores other than missing credentials and a missing photo key are not caught by the code. The model leaves them out rather than turning them into 500.

## Model

| member | source | states |
|---|---|---|
| Decimal.ValueOfShow | employees/routes.py:107 | reading back the decimal text of an employee ID gives that ID |
| Decimal.ShowInjective | employees/routes.py:107 | two different IDs never have the same decimal text |
| Decimal.ShowHasDigits | schemas.py:14 | for k >= 2, `str(n)` has exactly k digits iff 10^(k-1) <= n < 10^k |
| Calendar.ParseDate | schemas.py:9 | a date that parses is a real calendar date: year 1..9999, month 1..12, day within the month (Feb 29 only in leap years), and its year is the four leading digits |
| Calendar.ParseFormat | schemas.py:9 | every real date's canonical `YYYY-MM-DD` text is accepted and parses back to that date |
| Calendar.CanonicalTextIsFormat | schemas.py:9 | a ten-character text without spaces that parses is exactly the canonical `YYYY-MM-DD` form of the date it denotes |
| Calendar.Digits2OfValue | schemas.py:9 | a two-digit text is the zero-padded rendering of its own value |
| Calendar.Digits4OfValue | schemas.py:9 | a four-digit text is the zero-padded rendering of its own value |
| Calendar.AcceptsUnpaddedForms | schemas.py:9 | `2024-01-05`, `2024-1-5` and `2024-01- 5` all parse to 5 January 2024 |
| Calendar.AcceptsLeapDay | schemas.py:9 | 29 February of a leap year is accepted |
| Calendar.RejectsMalformed | schemas.py:9 | `13/13/2024`, month 13, day 32 and text left over after the day are refused |
| Calendar.RejectsFebruaryThirtieth | schemas.py:9 | 30 February is refused |
| Calendar.RejectsLeapDayOfCommonYear | schemas.py:9 | 29 February of a common year is refused |
| Calendar.RejectsYearZero | schemas.py:9 | year 0000 is refused |
| Calendar.LeapDay | schemas.py:9 | 29 February is a valid date exactly in Gregorian leap years |
| Schema.Load | schemas.py:5-21 | load succeeds iff the body has exactly the five declared keys with an integer ID the rule admits, string names, a parsable date and a pattern-matching country; the profile then carries those values. On failure every absent required field has "Missing data for required field." and every undeclared key has "Unknown field." |
| Schema.MissingFieldRejected | schemas.py:6-10 | dropping any one required field fails validation, with the message under that field's name |
| Schema.CountryPatternShape | schemas.py:20 | `CountryPattern`, the model of `re.match(r'^[A-Z]{2}$', …)`, matches exactly two upper-case ASCII letters, optionally followed by one newline |
| Schema.CountryExamples | schemas.py:18-21 | `US` and `US\n` match, while `usa`, `us` and `USA` do not |
| Schema.BadCountryRejected | schemas.py:18-21 | a string Country the pattern refuses fails validation with "Country must be a 2-letter ISO-3166 code." |
| Schema.BadStartDateRejected | schemas.py:9 | every string StartDate that `strptime` refuses fails validation with "Not a valid date." under `StartDate` |
| Schema.SlashedStartDateRejected | schemas.py:9 | StartDate `13/13/2024` fails validation with "Not a valid date." under `StartDate` |
| Schema.EmptyNamesAccepted | schemas.py:7-8 | empty first and last names still validate |
| Schema.AsWrittenIdCheckNeverFires | schemas.py:12-16 | `IdRejected(AsWritten, v)`, the written condition `10000000 < value < 1000000`, holds of no integer, so "EmployeeID must be exactly 7 digits." is never produced |
| Schema.SevenDigitsMeansSevenDecimalDigits | schemas.py:14-16 | `IdRejected(SevenDigits, v)` is false iff `str(v)` is seven digits |
| Schema.ShortIdSlipsThrough | schemas.py:15-16 | as written, a body with the two-digit ID 42 validates |
| Schema.SevenDigitsRefusesShortId | schemas.py:14-16 | under the corrected rule the same body is refused with "EmployeeID must be exactly 7 digits." |
| Schema.SevenDigitsLoadedIdHasSevenDigits | schemas.py:14-16 | under the corrected rule a body that loads has a seven-digit non-negative ID |
| Stores.PhotoKey | employees/routes.py:107 | the object key is the ID's decimal text followed by `.jpg` |
| Stores.PhotoKeyInjective | employees/routes.py:107 | two employees share a photo key iff they are the same employee |
| Stores.PhotoUrl | employees/routes.py:110 | a photo URL is the bucket's fixed `https://employeephoto.s3.amazonaws.com/` prefix followed by the employee's photo key |
| Stores.PhotoUrlInjective | employees/routes.py:110 | two employees share a photo URL iff they are the same employee |
| Stores.PhotoKeyExample | employees/routes.py:107 | employee 42's photo key is `42.jpg` |
| Stores.PhotoUrlExample | employees/routes.py:110 | employee 42's photo URL is `https://employeephoto.s3.amazonaws.com/42.jpg` |
| Stores.SetPhotoUrl | employees/routes.py:111-115 | the update sets `PhotoURL` and leaves every other attribute and every other record unchanged. An absent record is created as `{EmployeeID, PhotoURL}` |
| Gate.Split | employees/routes.py:55 | the pieces contain no separator, and a text containing the separator has at least two pieces |
| Gate.JoinSplit | employees/routes.py:55 | joining the pieces with the separator gives back the header |
| Gate.SplitPrefix | employees/routes.py:55 | a separator-free prefix becomes the start of the first piece |
| Gate.TokenIsSecondWord | employees/routes.py:55 | `ExtractToken`, the model of `auth.split(' ')[1]`, gives the text between the first and the second space of the header |
| Gate.Authorize | employees/routes.py:49-59 | the request passes iff the header is present, starts with `Bearer ` and its token is found by a scan that succeeds. A missing or malformed header yields "Token is missing or invalid!" |
| Gate.FailsClosed | employees/routes.py:34-47 | an unreachable credentials table or missing storage credentials reject every request |
| Routes.WithPathId | employees/routes.py:71 | the path ID replaces the body's `EmployeeID`, and every other key is kept |
| Routes.CreateProfile | employees/routes.py:67-82 | 201 iff the ID-corrected body validates and storage is reachable. It then stores that whole body under the ID, replacing any earlier record. 400 iff validation fails, carrying the field messages. A 201 carries "Profile created successfully". A body that validates while storage credentials are missing gets 500 with the error text. Any answer but 201 leaves the state unchanged |
| Routes.GetProfile | employees/routes.py:84-92 | with storage reachable: 200 with the stored record iff one exists, and 404 with "Employee not found" iff none exists. Without storage credentials it answers 500 with the error text. No store changes |
| Routes.UploadPhoto | employees/routes.py:99-119 | "No file part" and "No selected file" answer 400 and change nothing. Otherwise it answers 201 iff storage is reachable. It then puts the bytes at the employee's key, sets `PhotoURL`, and carries "Photo uploaded and profile updated successfully". Without storage credentials it answers 500 with the error text and changes nothing |
| Routes.GetPhoto | employees/routes.py:121-128 | with storage reachable: 200 with the stored bytes iff the key exists, and 404 with "Photo not found" iff it does not. Without storage credentials it answers 500 with the error text. No store changes |
| Routes.Handle | employees/routes.py:49-59 | the gate runs first: a rejection answers 401 and changes nothing. Only a POST answered 201 changes the state |
| RouteProperties.MalformedHeaderRejected | employees/routes.py:52-54 | a missing or non-`Bearer ` header gets 401 "Token is missing or invalid!" and nothing changes |
| RouteProperties.UnknownTokenRejected | employees/routes.py:55-57 | a token not in the credentials table gets 401 "Token is invalid!" and nothing changes |
| RouteProperties.KnownTokenReachesHandler | employees/routes.py:55-58 | a header carrying a known token reaches the handler |
| RouteProperties.NoServerErrorPastTheGate | employees/routes.py:81-82 | no request is answered with 500, because missing storage credentials already fail the gate's scan |
| RouteProperties.RetrievalIsReadOnly | employees/routes.py:84-92 | GET requests change no store |
| RouteProperties.CreateThenRetrieve | employees/routes.py:77 | after a 201 create, a GET for that ID returns the stored body. That body has the five declared keys, the path ID, and the submitted names, date and country |
| RouteProperties.InvalidCreateWritesNothing | employees/routes.py:79-80 | an authorised create whose body does not conform answers 400 with a non-empty message map and writes nothing |
| RouteProperties.PathIdNeverRejectedAsWritten | employees/routes.py:71 | as written, a rejected create never carries an `EmployeeID` message |
| RouteProperties.UnknownProfileNotFound | employees/routes.py:89-90 | an authorised GET for an ID never stored answers 404 "Employee not found" |
| RouteProperties.UnknownPhotoNotFound | employees/routes.py:123-126 | an authorised photo GET with no object at `"<id>.jpg"` answers 404 "Photo not found" and changes nothing |
| RouteProperties.UploadWithoutFileWritesNothing | employees/routes.py:100-104 | an upload without a usable `photo` part answers 400 and leaves every `PhotoURL` and object as it was |
| RouteProperties.UploadThenRetrieve | employees/routes.py:107-124 | after a 201 upload, a photo GET returns the uploaded bytes exactly, and the profile shows the non-empty photo URL |
| RouteProperties.UploadFrame | employees/routes.py:107-115 | a successful upload changes only this employee's photo object and `PhotoURL`. Other fields, other records and other employees' photos stay the same |
| RouteProperties.HandlePreservesRecordKeys | employees/routes.py:71-77 | every request keeps each stored record's `EmployeeID` equal to its key |

## Left out

- app.py (building the app, registering the blueprint, the hello-world route, starting the server) is not part of this model. It is wiring only.
- The storage session and client construction from environment variables (employees/routes.py:13-28) is not modelled. The stores are plain values, and missing credentials are a single `Access` flag that every store call shares.
- Gate.TokenAccepted: the model treats the credentials scan as set membership. The code checks only the first page a DynamoDB scan returns, so a matching item beyond the first page would be missed. The model does not capture that.
- JSON and HTTP plumbing is not modelled: `get_json` (the body is taken as an already-parsed object; a non-object or absent body is not modelled), `jsonify`, `send_file` and its mimetype, and `print` logging. Methods other than GET and POST (Flask's automatic HEAD and OPTIONS) are left out too.
- Schema.Load: a string or float `EmployeeID` counts as "Not a valid integer.", whereas marshmallow coerces numeric strings and floats. Through the handlers this cannot arise, because the path ID always replaces the body's value.
- Calendar.ParseDate: only ASCII digits are modelled. Python's `\d` in `strptime` also matches other Unicode decimal digits.
- Store errors other than missing credentials and the bucket's `NoSuchKey` (a `ClientError` from `put_item`, `update_item` or `get_object`) are not caught by the code. They are not modelled.
- Concurrency between requests, and a crash between the photo upload and the record update, are not modelled. The handlers are sequential transitions.
- DynamoDB's number representation is not modelled. IDs are naturals, and values are JSON values.

## Findings

| source | as written | input that shows it | evidently intended | confidence | as-written member | corrected member |
|---|---|---|---|---|---|---|
| schemas.py:15-16 | `if 10000000 < value < 1000000:` reject | `EmployeeID` 42, or any other integer, is accepted | reject unless `1000000 <= value <= 9999999`, i.e. `str(value)` has seven digits, as the commented-out `^\d{7}$` check says | high; not executed | Schema.ShortIdSlipsThrough | Schema.SevenDigitsMeansSevenDecimalDigits |

`IdRule.SevenDigits` is the corrected rule. The validator, `CreateProfile`
and `Handle` take the rule as a parameter. Every route property that takes a
rule holds for both rules, except `PathIdNeverRejectedAsWritten`, which is
about the as-written rule only.
