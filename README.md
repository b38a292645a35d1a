# Waitlist sign-up backend, modelled in Dafny

The backend of the landing page is a small Express server over one MongoDB
collection. This project models its core:

- **CORS origin check** (`Cors`, cors.dfy). A request is let through when it
  has no `Origin` header, when the origin is `''` or the literal `'null'`, or
  when it is one of five known front-end origins. Any other origin is refused
  with `Not allowed by CORS`.
- **`parseNumberField`** (`NumberField`, number_field.dfy). It reads a
  follower or subscriber count. Absent and `''` give `null`. Otherwise every
  comma is deleted, the rest is trimmed and read by `parseInt(…, 10)`:
  leading white space, an optional sign, the longest run of digits, and
  `null` when there are no digits. The JavaScript string primitives it
  needs (`trim` with ECMAScript white space, `toLowerCase`, truthiness)
  are in `JsString` (js_string.dfy).
- **The `Waitlist` schema** (`WaitlistSchema`, waitlist_schema.dfy).
  - Casting trims every string path, lower-cases `email`, defaults absent
    optional paths to `null`, and stamps `createdAt`.
  - `name`, `email` and `phno` are required: `null`, or `''` after trimming,
    fails validation.
  - There is a unique index on `email` and a sparse unique index on
    `instagram_username`.
  - `Create` is insertion as a function of the stored entries. The
    invariant it keeps is: every entry well formed, emails unique,
    non-null usernames unique.
- **The two endpoints** (`WaitlistApi`, waitlist_api.dfy).
  - The collection is a class whose `entries` sequence only grows.
  - `GET /api/waitlist/count` reports the number of entries.
  - `POST /api/waitlist` normalises the body and runs a duplicate lookup
    (email OR Instagram username). A hit is answered 409. Otherwise it
    inserts, and answers 201 with the stored entry, 409 on E11000, or 500.

What is proved, in the system's terms:

- The lookup is advisory. It never refuses a request that the indexes
  would accept.
- An E11000 is answered with the same message a lookup hit on that field
  would give.
- Every insert keeps the collection's invariant.
- Two racing submissions, whose lookups both run before either insert,
  can never both be stored under one email.
- Two submissions whose Instagram username is white space only collide.
  Such a handle is truthy, so the handler trims it to `''` instead of
  `null`, and the sparse index counts `''` as a value. The second of two
  such sign-ups is told that its Instagram username is taken.
- `parseNumberField` inverts decimal writing, with or without thousands
  separators, and ignores commas.

Whether each database call succeeds is a boolean parameter: `up` for a single
call, and `lookupUp` and `insertUp` for the two calls of the POST handler. The clock reading
stamped into `createdAt` is a parameter (`now`). `None` stands for both
`undefined` and `null`.

## Model

| member | source | states |
|---|---|---|
| JsString.TrimStart | server.js:66 | the result is the suffix of the input left after its leading white space; all that was cut is white space and the result does not start with white space |
| JsString.TrimEnd | server.js:65 | the result is the prefix of the input left before its trailing white space; all that was cut is white space |
| JsString.Trim | server.js:65 | the result has no white space at either end, is the slice of the input after its leading white space, and everything cut off on either side is white space |
| JsString.TrimOfTrimmed | models/Waitlist.js:28-32 | trimming a string with no white space at either end leaves it unchanged |
| JsString.TrimIdempotent | models/Waitlist.js:28-32 | trimming twice (in the handler, then by the schema setter) is trimming once |
| JsString.TrimStartPadded | server.js:66 | leading white space before a string that does not start with white space is exactly what is skipped |
| JsString.TrimEndPadded | server.js:65 | trailing white space after a string that does not end with white space is exactly what is cut |
| JsString.TrimPadded | server.js:65 | trimming undoes any white-space padding of a trimmed string |
| JsString.TrimAllWhitespace | models/Waitlist.js:7-22 | a string trims to `''` if and only if it is white space only |
| JsString.ToLower | models/Waitlist.js:12-17 | same length, no capital letter left, each character equal to the input's up to case, non-capitals unchanged |
| JsString.LowerKeepsTrimmed | models/Waitlist.js:12-17 | lower-casing a trimmed string keeps it trimmed and keeps its length |
| JsString.LowerOfLowerCase | models/Waitlist.js:12-17 | lower-casing a string with no capital letter changes nothing |
| NumberField.RemoveCommas | server.js:65 | deleting the commas never lengthens the input |
| NumberField.RemoveCommasLeavesNone | server.js:65 | after the replacement no comma is left |
| NumberField.RemoveCommasOfCommaFree | server.js:65 | a string without commas is unchanged by the replacement |
| NumberField.RemoveCommasIdempotent | server.js:65 | deleting the commas twice is deleting them once |
| NumberField.RemoveCommasAppend | server.js:65 | deleting commas distributes over concatenation |
| NumberField.CommaDeleted | server.js:65 | a comma is deleted rather than replaced: `','` becomes `''`, and a comma between two strings leaves just the two strings with their commas deleted |
| NumberField.LeadingDigits | server.js:66 | the longest digit prefix: a prefix made of digits, not followed by a digit |
| NumberField.ParseInt | server.js:66-67 | `parseInt` gives a number if and only if, after the leading white space, the input goes on with a digit or with a sign directly followed by a digit; in every other case it is `NaN`, hence `null` |
| NumberField.LeadingDigitsOfRun | server.js:66 | a digit run followed by a non-digit is read as exactly that run |
| NumberField.ParseIntReadsDigitRun | server.js:66 | `parseInt` skips white space, takes an optional sign, reads the digit run and ignores the rest, giving the signed decimal value |
| NumberField.ParseIntWithoutDigits | server.js:66-67 | input without a digit is `NaN`, hence `null` |
| NumberField.ParseIntOfDigits | server.js:66 | a plain digit string is read as its decimal value |
| NumberField.ParseIntNaN | server.js:66-67 | input whose first character is neither white space nor a digit, and is not a sign directly followed by a digit, is `NaN` |
| NumberField.LetterBeforeDigitsIsNaN | server.js:66-67 | `'abc1'` and `'x10'` are `NaN`: a letter before the digits stops the reading |
| NumberField.LoneSignIsNaN | server.js:66-67 | `'-'` and `'+'` are `NaN` |
| NumberField.DoubleSignIsNaN | server.js:66-67 | `'+-5'` is `NaN`: only one sign is read |
| NumberField.SpaceAfterSignIsNaN | server.js:66-67 | `'- 5'` is `NaN`: the digits must follow the sign directly |
| NumberField.ParseNumberField | server.js:63-64 | absent (`undefined`/`null`) and `''` give `null` |
| NumberField.NoDigitsIsNull | server.js:63-68 | any input with no digit in it (white space only, `'abc'`) gives `null` |
| NumberField.CommasIrrelevant | server.js:65 | the field's value depends only on the input with its commas deleted |
| NumberField.DigitsParse | server.js:63-68 | digits padded with white space give the number they denote |
| NumberField.PlainDigitsParse | server.js:63-68 | a non-empty digit string gives the number it denotes |
| NumberField.NumeralRoundTrip | server.js:63-68 | writing any count in decimal and parsing it gives the count back |
| NumberField.RemoveCommasOfGrouped | server.js:65 | deleting the commas from a digit string grouped by thousands gives the plain digits |
| NumberField.GroupedRoundTrip | server.js:62-68 | a count written with thousands separators is read back as that count |
| NumberField.TenThousandFiveHundred | server.js:65-66 | `'10,500'` is read as 10500 |
| Cors.CheckOrigin | server.js:21-29 | the origin is allowed if and only if it is absent, `''`, `'null'` or on the allow-list; a refusal carries `Not allowed by CORS` |
| Cors.FiveAllowedOrigins | server.js:12-18 | the allow-list holds five distinct origins |
| Cors.AllowedAreLocalOrSecure | server.js:12-23 | every allowed real origin is a localhost development server or an HTTPS site |
| WaitlistSchema.CastString | models/Waitlist.js:23-41 | the trim setter keeps `null` as `null` and otherwise yields exactly the trimmed input |
| WaitlistSchema.CastEmail | models/Waitlist.js:12-17 | the email setters keep `null` as `null` and otherwise yield exactly the lower-cased trimmed input, which is trimmed and has no capital letter |
| WaitlistSchema.CastBlank | models/Waitlist.js:7-22 | after casting, a required path is `null` or `''` exactly when the submitted value was absent or white space only |
| WaitlistSchema.ErrorCode | server.js:130 | the error code is 11000 if and only if the error is a duplicate key; no other error carries a code |
| WaitlistSchema.MissingPaths | models/Waitlist.js:7-22 | each required path is reported missing if and only if its cast value is `null` or `''`; none is reported if and only if all three are present and non-empty |
| WaitlistSchema.Cast | models/Waitlist.js:6-50 | a document validates if and only if none of name, email, phno is blank; a failure is a validation error listing exactly the paths whose cast value is blank; a valid entry is well formed, stamped with `now`, holds the trimmed name, phno, platform, username and channel name and the trimmed lower-cased email, absent optional paths as `null`, and the counts as given |
| WaitlistSchema.ViolatedIndex | models/Waitlist.js:54-56 | the email index is reported exactly when the email is taken; the username index exactly when the email is free and the non-null username is taken; none exactly when neither is |
| WaitlistSchema.Create | models/Waitlist.js:6-56 | a validation failure is returned as is; a valid entry that violates an index gives E11000 whose `keyPattern` and `keyValue` name that index (email first); a valid entry that violates no index is created as cast; no other error arises |
| WaitlistSchema.CreateKeepsInvariant | models/Waitlist.js:53-56 | inserting keeps every entry well formed, emails unique and non-null usernames unique |
| WaitlistSchema.AppendKeepsWellFormed | models/Waitlist.js:6-50 | appending a well-formed entry keeps all entries well formed |
| WaitlistSchema.AppendKeepsEmailsUnique | models/Waitlist.js:54 | appending an entry with an email not yet stored keeps emails unique |
| WaitlistSchema.AppendKeepsHandlesUnique | models/Waitlist.js:55-56 | appending an entry whose username is `null` or not yet stored keeps non-null usernames unique |
| WaitlistSchema.CreateSucceedsIff | models/Waitlist.js:6-56 | an insert succeeds if and only if no required path is blank, the cast email is new and the cast username is `null` or new |
| WaitlistSchema.NullHandlesNeverCollide | models/Waitlist.js:55-56 | a document without a username can only be refused on the email index |
| WaitlistSchema.SecondInsertOfEmailFails | models/Waitlist.js:54 | once an entry is stored, any valid document with the same cast email is refused on the email index |
| WaitlistSchema.SecondOfTwoAccepted | models/Waitlist.js:54-56 | of two documents each acceptable alone, the second inserted is refused on the email index if the emails agree, else on the username index if the usernames agree, else created |
| WaitlistSchema.ViolatedAfterAppend | models/Waitlist.js:54-56 | for an entry violating no index, appending another makes only that one's email or username a possible violation |
| WaitlistSchema.AcceptedEmailNotStored | models/Waitlist.js:12-17 | stored emails are normalised, so an accepted document's email as submitted is not stored either |
| WaitlistSchema.AcceptedHandleNotStored | models/Waitlist.js:28-32 | an accepted document's already trimmed username is not stored |
| WaitlistApi.OrNull | server.js:113-116 | the `or null` fallback is `null` exactly for an absent or empty value, and the value itself otherwise |
| WaitlistApi.NormalizeHandle | server.js:96-97 | the handle is `null` exactly when absent or `''`; otherwise it is exactly the trimmed input |
| WaitlistApi.NormalizeTrimmedHandle | server.js:96-97 | a non-empty handle with no white space at either end is passed on unchanged |
| WaitlistApi.BlankHandleKeptAsEmpty | server.js:96 | a handle of white space only becomes `''`, not `null` |
| WaitlistApi.BuildDoc | server.js:112-121 | name, email, phno and platform are the submitted value or `null` when falsy; both handles are normalised; both counts go through `parseNumberField` |
| WaitlistApi.LookupQuery | server.js:100-101 | the query has the submitted email as is, and a username disjunct equal to the normalised handle exactly when that is non-empty |
| WaitlistApi.Matches | server.js:100-103 | the `$or` filter: without a username disjunct an entry matches exactly when it has the queried email; without an email it matches exactly when it has the queried username |
| WaitlistApi.FirstMatch | server.js:103 | the position of the first matching entry in insertion order, or the length when none matches |
| WaitlistApi.FindFirst | server.js:103 | one answer `findOne` may give: a found entry is stored and matches the query; `null` exactly when no stored entry matches |
| WaitlistApi.ConflictMessage | server.js:105-108 | the email message exactly when the found entry has the submitted email; the username message exactly when it does not but has the submitted non-empty handle; the generic message otherwise |
| WaitlistApi.QueryMisses | server.js:100-103 | no stored entry matches the lookup if and only if the queried email and the queried non-null username are both not stored |
| WaitlistApi.LookupHitMessage | server.js:105-109 | for whichever matching entry the lookup returns, the message names a field: the email message exactly when that entry has the submitted email, else the username message |
| WaitlistApi.LookupNeverBlocksAcceptedInsert | server.js:99-103 | a request whose document the indexes would accept matches no stored entry in the lookup |
| WaitlistApi.DuplicateKeyName | server.js:131 | the first key of `keyPattern` when present (none if it is empty); without `keyPattern`, the first key of `keyValue`, and none exactly when `keyValue` is absent or empty |
| WaitlistApi.ErrorResponse | server.js:126-138 | code 11000 and only it gives 409, with the email, username or generic message after the first key; anything else is a 500 carrying the error |
| WaitlistApi.InsertResponse | server.js:123-136 | 201 with the created entry exactly when the insert succeeded; any insert error is answered by the catch block |
| WaitlistApi.InsertOutcomeResponse | server.js:123-136 | an insert answers 201 exactly when created; a validation failure is a 500; an index refusal is a 409 with the same message a lookup hit on that field gives |
| WaitlistApi.WaitlistCollection.constructor | models/Waitlist.js:58 | a new collection is empty and satisfies the invariant |
| WaitlistApi.WaitlistCollection.CountDocuments | server.js:73 | the number of stored entries, or an error when the database is down |
| WaitlistApi.WaitlistCollection.FindOne | server.js:103 | some stored entry matching the query, `null` exactly when none matches, or an error when the database is down |
| WaitlistApi.WaitlistCollection.Create | server.js:123 | on success exactly the cast entry is appended, otherwise nothing changes; the invariant is kept |
| WaitlistApi.GetCount | server.js:71-79 | 200 with the number of entries, or 500 with the count failure message |
| WaitlistApi.PreCheck | server.js:94-110 | no early response exactly when nothing matches; on a hit, the 409 naming the field for whichever matching entry the lookup returns; a lookup failure is a 500 |
| WaitlistApi.Insert | server.js:112-138 | the response to inserting the built document; the collection grows by the created entry exactly on 201 |
| WaitlistApi.PostWaitlist | server.js:82-140 | status is 201, 409 or 500; on 201 exactly the normalised payload is appended, otherwise nothing changes; a failed lookup is a 500; a lookup hit is the 409 for some matching entry; a miss is answered as the insert's outcome, or 500 when the insert call fails |
| WaitlistApi.RacingPosts | server.js:129-136 | two submissions each acceptable alone both miss the lookup; the first is created, the second refused on the email index, then the username index, or created |
| WaitlistApi.BlankHandlesCollide | models/Waitlist.js:55-56 | two sign-ups with white-space-only usernames and different emails: the second is refused as a taken Instagram username |

## Left out

- Logging (`console.log`, `console.error`), `dotenv`, `app.listen`, the Express wiring, the CORS `methods`, `allowedHeaders` and `optionsSuccessStatus` options, and the request-logging middleware. These are I/O without effect on responses.
- `mongoose.connect` and the exit on connection failure. Whether a database call succeeds is a parameter (`up`, or `lookupUp` and `insertUp` in the POST handler). A failing call fails with an error that is not E11000.
- `Date.now` is the `now` parameter.
- `_id`, `__v` and the JSON serialisation of the entry in a 201 body. The body carries the entry as a value.
- The 500 body's `error: error.message`. The body carries the error value, not its text.
- The validation error's text, including each `required` rule's own message. A validation failure carries the missing required paths, not the `error.message` that the 500 body would carry.
- Request bodies whose fields are not strings: numbers, objects, arrays. Every field is an optional string. `String(val)` on other types is not modelled.
- Mongoose query casting. The lookup compares the submitted email as is against stored, normalised emails; whether Mongoose applies the `lowercase` and `trim` setters to query values is not modelled. If it does, the answers differ from the model's. Say `a@x.com` is stored and `A@x.com` is resubmitted. The real lookup would find the entry, and since `existing.email === email` fails on the raw email, it would answer 409 with `Entry already exists on the waitlist.`. The model's lookup misses instead, and the insert's E11000 on the email index gives the email message. `LookupHitMessage` (a hit never gets the generic message) and `LookupNeverBlocksAcceptedInsert` hold only under the raw-email lookup.
- MongoDB's handling of an explicitly stored `null` under a sparse index. The model treats a `null` username as absent from the index, as the schema comment intends.
- When a document violates both unique indexes, MongoDB reports the email index first. This order is assumed.
- WaitlistApi.WaitlistCollection.FindOne: its body returns the first match in insertion order (`FindFirst`). MongoDB promises no order for `findOne`, so the contracts of `FindOne`, `PreCheck` and `PostWaitlist` promise only some matching entry.
- Real concurrency. `RacingPosts` models the interleaving in which both lookups run before either insert, as a sequence of pure steps.
- `toLowerCase` beyond ASCII letters, and strings as UTF-16 code units. Strings are sequences of characters.
- NumberField.ParseNumberField: does not model conversion to a double. Values beyond about 1.8e308 are `Infinity` in the source and so become `null` through `Number.isFinite`. Values beyond 2^53 lose precision. The model keeps the exact integer. `-0` is read as 0.
- NumberField.RemoveCommas: its own contract states only that the result is no longer than the input. The lemmas beside it state the rest: no comma is left, comma-free input is unchanged, a comma is deleted rather than replaced (`CommaDeleted`), and deletion distributes over concatenation. Together these fix the function on every input.
