# Waitlist landing page: a verified model of its logic

This project models the logic layer of the `vibe-coding-landing` waitlist page in Dafny and proves properties of it. That layer covers:

- the validation and sanitising of a subscriber's name and email;
- the API layer: response builders, error classification, a fixed-window rate limiter, and the `withApiHandler` middleware order;
- the two routes: the subscribe decision chain and the 60-second cache in front of the subscriber count;
- the data-access wrappers over the `subscribers` table and Supabase error normalisation;
- the three client hooks: the form-error map, the submit flags, and the polling count with retry and backoff;
- the counter's animation toward the fetched count and its choice of view;
- the number and message formatters.

The model follows the program's file structure: one Dafny module per source file, plus three support modules.

- `Types` holds the shared records of `src/types`.
- `Strings` holds the JavaScript string built-ins the code relies on: `trim`, `toLowerCase`, `includes`, `join` and number-to-string.
- `Records` models a JavaScript object used as `Record<string, string>`: an association list kept in insertion order. `Object.keys`/`Object.values` list keys that are not array indices, such as "name" and "email", in insertion order, and those are the only keys the code uses.

Pure code becomes functions and lemmas. Code that changes state becomes classes whose fields the methods update:

- the rate-limit store;
- the count cache;
- the table;
- the form-error map;
- the submit flags;
- the polling hook;
- the displayed count.

Each method's postcondition ties the new state and the result to a pure function of the old state. The properties are then proved about those functions.

Several things become parameters:

- The current time is a `now` argument, in milliseconds.
- The outcome of each database round trip is a `Backend` value: the service answers truthfully, returns an error object, or throws. The table itself is a sequence of subscriber rows.
- An `await` is split into two events: the call begins, and later its result arrives (`BeginFetch`/`OnFetchResult`, `StartSubmission`/`FinishSubmission`).
- A timer firing is an event method: `OnTick`, `OnVisibility`, and the retry delay returned by `OnFetchResult`.

## Model

| member | source | states |
|---|---|---|
| Validations.MatchesEmailPattern | vibe-coding-landing/src/lib/validations.ts:13-14 | the scan accepts exactly the strings matching the email pattern: a non-empty run with no space or `@`, one `@`, a non-empty run, a dot, and a non-empty run |
| Validations.SplitShape | vibe-coding-landing/src/lib/validations.ts:13 | a string that matches has exactly one `@` and no whitespace, and the `@` is neither first nor last |
| Validations.SplitShapeAt | vibe-coding-landing/src/lib/validations.ts:13 | pointwise form of the same fact: every position of a matching string is non-space, and only the split position holds `@` |
| Validations.MatchesNamePattern | vibe-coding-landing/src/lib/validations.ts:48-49 | the scan accepts exactly the non-empty strings of ASCII letters, whitespace, hyphens and apostrophes |
| Validations.ValidateEmail | vibe-coding-landing/src/lib/validations.ts:4-27 | the pushed errors are `EmailErrors`: "Email is required" alone for an empty email, otherwise the format error when the pattern fails, then the length error when it is over 255; valid exactly when the email is non-empty, matches the pattern and is at most 255 long; every error is tagged "email" |
| Validations.EmailErrors | vibe-coding-landing/src/lib/validations.ts:4-27 | the errors of an email in push order: "Email is required" alone when empty, otherwise the format error if the pattern fails, then the length error if it is over 255 long (meaning proved in `EmailErrorsMeaning`) |
| Validations.EmailErrorsMeaning | vibe-coding-landing/src/lib/validations.ts:4-27 | no email errors exactly when the email is non-empty, matches and is at most 255 long; every error's field is "email" and its message is non-empty |
| Validations.EmptyEmailOnlyRequired | vibe-coding-landing/src/lib/validations.ts:7-10 | an empty email yields exactly one error, "Email is required" |
| Validations.EmailBothFailures | vibe-coding-landing/src/lib/validations.ts:13-21 | a non-matching email over 255 characters reports both the format error and the length error, in that order |
| Validations.EmailWithSpaceRejected | vibe-coding-landing/src/lib/validations.ts:13-16 | an email containing whitespace anywhere never matches, so the format error is reported |
| Validations.ValidateName | vibe-coding-landing/src/lib/validations.ts:30-57 | the pushed errors are `NameErrors`: "Name is required" alone for an empty name, otherwise too-short, too-long and invalid-characters, each when its check fails; valid exactly when the name is non-empty, 2 to 100 long as typed, and its trimmed text matches the character set; every error is tagged "name" |
| Validations.NameErrors | vibe-coding-landing/src/lib/validations.ts:30-57 | the errors of a name in push order: "Name is required" alone when empty, otherwise too-short below 2 and too-long above 100 as typed, then invalid-characters when the trimmed text fails the character set (meaning proved in `NameErrorsMeaning`) |
| Validations.NameErrorsMeaning | vibe-coding-landing/src/lib/validations.ts:30-57 | no name errors exactly when the name is non-empty, 2 to 100 long as typed, and its trimmed text matches the character set; every error's field is "name" and its message is non-empty |
| Validations.OneCharInvalidName | vibe-coding-landing/src/lib/validations.ts:38-51 | a one-character name outside the character set reports both the too-short error and the invalid-characters error |
| Validations.BlankNameRejected | vibe-coding-landing/src/lib/validations.ts:43-51 | a name of 2 to 100 whitespace characters passes the length checks but fails the character set, since its trimmed text is empty |
| Validations.ValidateSubscriberForm | vibe-coding-landing/src/lib/validations.ts:66-81 | the errors are the name errors followed by the email errors; valid exactly when both lists are empty |
| Validations.FormErrors | vibe-coding-landing/src/lib/validations.ts:66-81 | the name errors followed by the email errors (order proved in `FormErrorsOrdered`) |
| Validations.FormErrorsOrdered | vibe-coding-landing/src/lib/validations.ts:66-81 | no name error follows an email error, and every field is "name" or "email" |
| Validations.ValidateRequiredField | vibe-coding-landing/src/lib/validations.ts:84-98 | at most one error; "required" when the trimmed value is empty, otherwise the min-length message when the trimmed value is shorter than the minimum; none exactly when neither holds |
| Validations.CollapseSpaces | vibe-coding-landing/src/lib/validations.ts:102 | replacing whitespace runs never lengthens the text, keeps it empty exactly when it was empty, and maps a leading whitespace to one space |
| Validations.SanitizeInput | vibe-coding-landing/src/lib/validations.ts:101-103 | trim, then every whitespace run replaced by one ' ' (properties proved in `SanitizeInputNormalises` and `SanitizeInputIdempotent`) |
| Validations.CollapseSingleSpaced | vibe-coding-landing/src/lib/validations.ts:102 | after replacing whitespace runs, every whitespace is a single ' ' and no two are adjacent |
| Validations.CollapseSpacesFixed | vibe-coding-landing/src/lib/validations.ts:102 | a text that is already single-spaced is unchanged by the replacement |
| Validations.CollapseLast | vibe-coding-landing/src/lib/validations.ts:102 | the replacement keeps the last character, or turns trailing whitespace into one ' ' |
| Validations.CollapseKeepsTrimmed | vibe-coding-landing/src/lib/validations.ts:102 | a text with no whitespace at its ends still has none after the replacement |
| Validations.CollapseNonSpace | vibe-coding-landing/src/lib/validations.ts:102 | the replacement keeps every non-whitespace character, in order |
| Validations.NonSpaceTrim | vibe-coding-landing/src/lib/validations.ts:102 | `trim` keeps every non-whitespace character, in order |
| Validations.SanitizeInputNormalises | vibe-coding-landing/src/lib/validations.ts:101-103 | the sanitised text has no leading or trailing whitespace, every whitespace is a single ' ' between non-space characters, and the non-space characters are kept in order |
| Validations.SanitizeInputIdempotent | vibe-coding-landing/src/lib/validations.ts:101-103 | sanitising twice gives the same text as sanitising once |
| Validations.ValidateAndSanitizeSubscriber | vibe-coding-landing/src/lib/validations.ts:106-124 | the name is sanitised, the email lower-cased and trimmed, and the flag is true only when given as true; the errors are those of the sanitised data, not the raw data |
| Validations.CanonicalEmail | vibe-coding-landing/src/lib/validations.ts:113 | the email lower-cased, then trimmed (properties proved in `CanonicalEmailShape`, `CanonicalEmailIdempotent` and `CanonicalEmailIgnoresCase`) |
| Validations.CanonicalEmailIdempotent | vibe-coding-landing/src/lib/validations.ts:113 | canonicalising an email twice equals doing it once |
| Validations.CanonicalEmailIgnoresCase | vibe-coding-landing/src/lib/validations.ts:113 | two emails that lower-case to the same text canonicalise to the same email |
| Validations.CanonicalEmailShape | vibe-coding-landing/src/lib/validations.ts:113 | a canonical email has no upper-case ASCII letter and no leading or trailing whitespace |
| Validations.ToLowerLowered | vibe-coding-landing/src/lib/validations.ts:113 | lower-casing leaves no character that lower-casing would change |
| Validations.TrimKeepsLowered | vibe-coding-landing/src/lib/validations.ts:113 | trimming a lower-cased text keeps it lower-cased |
| Strings.TrimStart | vibe-coding-landing/src/lib/validations.ts:49 | the result is a suffix of the input, the part dropped is all whitespace, and the result does not start with whitespace |
| Strings.TrimEnd | vibe-coding-landing/src/lib/validations.ts:49 | the result is a prefix of the input, the part dropped is all whitespace, and the result does not end with whitespace |
| Strings.Trim | vibe-coding-landing/src/lib/validations.ts:49 | `trimEnd` of `trimStart`: both ends of JavaScript whitespace removed (proved in `TrimIsInfix` and `TrimEnds`) |
| Strings.TrimIsInfix | vibe-coding-landing/src/lib/validations.ts:49 | the input is the trimmed text with a whitespace-only text in front and another behind, so `trim` cuts only whitespace and keeps the rest contiguous |
| Strings.TrimEnds | vibe-coding-landing/src/lib/validations.ts:49 | a trimmed text is empty or starts and ends with a non-space |
| Strings.TrimAllSpace | vibe-coding-landing/src/lib/validations.ts:91 | trimming an all-whitespace text gives the empty text |
| Strings.TrimStartStep | vibe-coding-landing/src/lib/validations.ts:49 | trimming the start drops a leading space and stops at the first non-space |
| Strings.TrimFixed | vibe-coding-landing/src/lib/validations.ts:49 | a text with no whitespace at either end is unchanged by trimming |
| Strings.ToLower | vibe-coding-landing/src/lib/validations.ts:113 | lower-casing keeps the length and maps each character independently |
| Strings.LowerCharIdempotent | vibe-coding-landing/src/lib/validations.ts:113 | lower-casing a character twice equals once |
| Strings.LowerKeepsSpace | vibe-coding-landing/src/lib/validations.ts:113 | lower-casing neither creates nor removes whitespace |
| Strings.Join | vibe-coding-landing/src/lib/api-utils.ts:44 | joining no parts gives "", and joining one part gives that part |
| Strings.Includes | vibe-coding-landing/src/lib/api-utils.ts:32-40 | `String.prototype.includes`: some position of the text starts the part |
| Strings.IntToString | vibe-coding-landing/src/lib/validations.ts:84-98 | the decimal form of an integer, with a '-' in front of a negative one |
| Strings.NatToString | vibe-coding-landing/src/lib/formatters.ts:9 | the decimal form of a natural number is non-empty and all digits |
| Strings.NatToStringRoundTrip | vibe-coding-landing/src/lib/formatters.ts:9 | parsing the decimal form of n gives back n |
| Strings.NatToStringNoLeadingZero | vibe-coding-landing/src/lib/formatters.ts:9 | the decimal form starts with '0' only for zero |
| Formatters.FormatNumber | vibe-coding-landing/src/lib/formatters.ts:2-10 | the formatted number is never empty |
| Formatters.FormatNumberShape | vibe-coding-landing/src/lib/formatters.ts:2-10 | 0 to 999 print as plain digits that parse back to the number; negatives start with '-'; 1000 to 999999 end in "K"; one million or more end in "M"; below 1000 there is no suffix |
| Formatters.FormatNumberExamples | vibe-coding-landing/src/lib/formatters.ts:2-10 | 1500 gives "1.5K", 2000000 gives "2.0M", 999999 gives "1000.0K", and 42 gives "42" |
| Formatters.HundredthsFiveExample | vibe-coding-landing/src/lib/formatters.ts:2-10 | 1150 gives "1.2K": the model rounds the exact quotient 1.15 half up (where the program's double gives "1.1K"; see "## Left out") |
| Formatters.Pluralize | vibe-coding-landing/src/lib/formatters.ts:24-27 | a count of 1 gives the singular; any other count gives the plural if one is given and non-empty, else singular + "s" |
| Formatters.FormatCount | vibe-coding-landing/src/lib/formatters.ts:13-16 | the text is exactly the formatted number, a space, and the word `pluralize` picks for the count |
| Formatters.FormatSubscriberCount | vibe-coding-landing/src/lib/formatters.ts:19-21 | a count of 1 ends in " subscriber"; any other count ends in " subscribers" |
| Formatters.FormatSubscriberMessage | vibe-coding-landing/src/lib/formatters.ts:30-33 | the message is "Join ", then the formatted number, then " ambitious builders who've already signed up" |
| Formatters.MessageDeterminesSmallCount | vibe-coding-landing/src/lib/formatters.ts:30-33 | for counts from 0 to 999, equal messages mean equal counts |
| Records.Keys | vibe-coding-landing/src/lib/api-utils.ts:44 | the keys are the entries' first components, in insertion order |
| Records.Values | vibe-coding-landing/src/lib/api-utils.ts:44 | `Object.values` gives the entries' values in insertion order |
| Records.Lookup | vibe-coding-landing/src/hooks/useFormValidation.ts:47-61 | a lookup finds a value exactly when the key is present |
| Records.Put | vibe-coding-landing/src/hooks/useFormValidation.ts:47-52 | after an assignment the key maps to the new value, and every other key is unchanged |
| Records.PutAll | vibe-coding-landing/src/app/api/subscribe/route.ts:20-23 | the map built by assigning each error's message to its field, in order (proved in `PutAllLookup` and `PutAllKeys`) |
| Records.PutKeys | vibe-coding-landing/src/hooks/useFormValidation.ts:47-52 | assigning an existing key keeps the key order; assigning a new key appends it |
| Records.PutDistinct | vibe-coding-landing/src/hooks/useFormValidation.ts:47-52 | assignment keeps the keys distinct |
| Records.Delete | vibe-coding-landing/src/hooks/useFormValidation.ts:55-61 | after `delete` the key is absent and every other key is unchanged; the key set loses exactly that key; deleting an absent key changes nothing |
| Records.DeleteDistinct | vibe-coding-landing/src/hooks/useFormValidation.ts:55-61 | deletion keeps the keys distinct |
| Records.ValuesMatchKeys | vibe-coding-landing/src/lib/api-utils.ts:44 | with distinct keys, the i-th value is what the i-th key looks up |
| Records.Fields | vibe-coding-landing/src/app/api/subscribe/route.ts:21-23 | the field of each error, in order |
| Records.FirstOccurrences | vibe-coding-landing/src/app/api/subscribe/route.ts:21-23 | the fields without repeats: the same members, each once |
| Records.PutAllLookup | vibe-coding-landing/src/app/api/subscribe/route.ts:20-23 | after the forEach, each field maps to the message of its last error |
| Records.PutAllKeys | vibe-coding-landing/src/app/api/subscribe/route.ts:20-23 | the map's keys are the fields in order of first appearance |
| Records.CollectErrors | vibe-coding-landing/src/hooks/useFormValidation.ts:76-79 | the loop builds the map in which every field holds its last message and keys follow first appearance |
| Supabase.HandleSupabaseError | vibe-coding-landing/src/lib/supabase.ts:37-51 | with a non-empty message, message, details, hint and code are copied; otherwise the message is "An unexpected error occurred", with no hint or code, and the details are the error's string form, or "Unknown error" when that is missing or empty |
| Supabase.MessageNonEmpty | vibe-coding-landing/src/lib/supabase.ts:37-51 | the normalised message is never empty |
| Supabase.StringErrorLosesText | vibe-coding-landing/src/lib/supabase.ts:37-51 | a bare string error loses its text from the message, which becomes "An unexpected error occurred"; the text survives only in the details |
| Database.WithErrorHandling | vibe-coding-landing/src/lib/database.ts:5-33 | success exactly when the operation returned a falsy error; on success the data is passed through with no error; on failure, whether returned or thrown, the data is null and the error is the normalised, non-empty message |
| Database.CheckEmailExists | vibe-coding-landing/src/lib/database.ts:77-87 | the data is true exactly when the service answers and some row's email equals the argument exactly; a failed or throwing call is not a success |
| Database.GetSubscriberCount | vibe-coding-landing/src/lib/database.ts:66-74 | an answered call returns the number of rows; a successful result always carries a count of at least 0 |
| Database.UpdatedRows | vibe-coding-landing/src/lib/database.ts:102-116 | the update keeps the table's length and rewrites each row independently |
| Database.FirstMatch | vibe-coding-landing/src/lib/database.ts:102-116 | the row `single()` returns is the first with the matching email |
| Database.SubscriberTable.InsertSubscriber | vibe-coding-landing/src/lib/database.ts:36-63 | the table is `InsertedRows` and the result `InsertResult`: an email the re-check finds present is refused with the duplicate text through the wrapper; otherwise an answered insert appends the new row and returns it, a failed or thrown one returns the normalised error |
| Database.SubscriberTable.UpdateSubscriberStatus | vibe-coding-landing/src/lib/database.ts:102-116 | the table is `UpdateStatusRows`: an answered update with exactly one matching row sets that row's flag, anything else writes nothing; the result is `UpdateResult`: that row, or the not-single error, or the normalised error |
| Database.InsertedRows | vibe-coding-landing/src/lib/database.ts:36-63 | the table after an insert: one new row appended exactly when the re-check did not find the email and the insert was answered (proved in `InsertOutcome`) |
| Database.InsertResult | vibe-coding-landing/src/lib/database.ts:36-63 | the insert's result: the duplicate refusal through the wrapper, the new row, or the normalised error of a failed or thrown insert (proved in `InsertOutcome` and `InsertRefusesPresentEmail`) |
| Database.MatchCount | vibe-coding-landing/src/lib/database.ts:107-112 | how many rows hold the email, the rows `.eq('email', email)` selects (proved in `MatchCountPresent` and `UniqueMatchCount`) |
| Database.UpdateStatusRows | vibe-coding-landing/src/lib/database.ts:107-112 | the table after an update: every row with the email gets the flag when the service answered and exactly one row matched, otherwise the table is unchanged |
| Database.UpdateResult | vibe-coding-landing/src/lib/database.ts:102-116 | the update's result: the one updated row, the not-single error when no row or several match, or the normalised error (proved in `UpdateResultMeaning` and `UpdateCommitsOnSuccess`) |
| Database.UpdateCommitsOnSuccess | vibe-coding-landing/src/lib/database.ts:107-112 | the table changes only when the update reports success; an answered update succeeds exactly when one row matches, and otherwise writes nothing |
| Database.DuplicateUpdateRefused | vibe-coding-landing/src/lib/database.ts:107-112 | two rows with the same email make the update fail and leave both rows as they were |
| Database.InsertOutcome | vibe-coding-landing/src/lib/database.ts:36-63 | a failed insert leaves the table unchanged; a successful one appends exactly the row it returns, which holds the given name, email and flag; the table changes only by that one row |
| Database.InsertRefusesPresentEmail | vibe-coding-landing/src/lib/database.ts:43-49 | when the check sees the email present, no row is added and the error is "An unexpected error occurred", not the duplicate text |
| Database.InsertKeepsEmailsUnique | vibe-coding-landing/src/lib/database.ts:43-61 | with an answering check, an insert keeps the table's emails unique |
| Database.FailedCheckAdmitsDuplicate | vibe-coding-landing/src/lib/database.ts:43-61 | a failed check reads as "not present", so the insert goes ahead and duplicates an email already stored |
| Database.MatchCountPresent | vibe-coding-landing/src/lib/database.ts:110 | some row matches the email exactly when the email is present |
| Database.UniqueMatchCount | vibe-coding-landing/src/lib/database.ts:110-112 | in a table of unique emails, a present email matches exactly one row |
| Database.NoMatchAfter | vibe-coding-landing/src/lib/database.ts:110-112 | an email held by no row matches no row |
| Database.UpdateChangesOnlyFlag | vibe-coding-landing/src/lib/database.ts:107-112 | an update changes only the flag, and only on the row with the matching email |
| Database.UpdateResultMeaning | vibe-coding-landing/src/lib/database.ts:102-116 | in a table of unique emails, an answered update succeeds exactly when the email is present, and it returns the updated row with the new flag |
| ApiUtils.CreateSuccessResponse | vibe-coding-landing/src/lib/api-utils.ts:5-11 | status 200 and a success body carrying the data and the message |
| ApiUtils.CreateErrorResponse | vibe-coding-landing/src/lib/api-utils.ts:13-18 | the given status, 400 by default, with an error body holding the message |
| ApiUtils.HandleDatabaseError | vibe-coding-landing/src/lib/api-utils.ts:29-41 | null or undefined has no status, because reading `.message` throws; any other error gives a failure with status 409, 400 or 500 |
| ApiUtils.DatabaseErrorStatus | vibe-coding-landing/src/lib/api-utils.ts:32-40 | a message containing "duplicate" gives 409; otherwise one containing "validation" gives 400; otherwise 500 |
| ApiUtils.DuplicateTakesPrecedence | vibe-coding-landing/src/lib/api-utils.ts:32-37 | the worked message "validation failed: duplicate key", which has both words, gets 409; the general rule for every message is `DatabaseErrorStatus` |
| ApiUtils.HandleValidationError | vibe-coding-landing/src/lib/api-utils.ts:43-46 | status 400, with the map's values joined by ", " |
| ApiUtils.HandleRateLimitError | vibe-coding-landing/src/lib/api-utils.ts:48-50 | status 429 with the try-again message |
| ApiUtils.ValidateRequestMethod | vibe-coding-landing/src/lib/api-utils.ts:53-58 | no response exactly when the request's method is the expected one; otherwise 405 "Method X not allowed" |
| ApiUtils.SetCorsHeaders | vibe-coding-landing/src/lib/api-utils.ts:78-83 | status and body are kept and the CORS headers are set |
| ApiUtils.HandleCors | vibe-coding-landing/src/lib/api-utils.ts:85-91 | only OPTIONS is answered: an empty 200 with CORS headers |
| ApiUtils.RateInfo | vibe-coding-landing/src/lib/api-utils.ts:116-125 | null exactly for an unknown identifier; otherwise limit 5, the reset time, and remaining max(0, 5 − count) |
| ApiUtils.RateLimiter.CheckRateLimit | vibe-coding-landing/src/lib/api-utils.ts:94-114 | the decision is `RateAllowed` and the new store `RateStore`: an unknown or expired identifier starts a window of count 1 ending at now + 60000 and is allowed; a full window refuses and is left as is; otherwise the count goes up by one and the call is allowed |
| ApiUtils.RateAllowed | vibe-coding-landing/src/lib/api-utils.ts:96-114 | a call is allowed when the identifier is unknown, its window has expired, or its count is below the limit (proved in `RateNewWindow`, `RateWithinWindow` and `WindowBound`) |
| ApiUtils.RateStore | vibe-coding-landing/src/lib/api-utils.ts:96-114 | the store after a call: a new window of count 1 ending at now + window for an unknown or expired identifier; unchanged when the window is full; otherwise the count plus one (proved in `RateOthersUnchanged` and `RateKeepsCountsPositive`) |
| ApiUtils.RateLimiter.GetRateLimitInfo | vibe-coding-landing/src/lib/api-utils.ts:116-125 | the answer is `RateInfo` of the current store: null for an unknown identifier, otherwise limit 5, the reset time and max(0, 5 − count); the store is unchanged |
| ApiUtils.RateNewWindow | vibe-coding-landing/src/lib/api-utils.ts:100-106 | for an unseen identifier, or once now > resetTime, the call is allowed and the record becomes {count 1, now + window} |
| ApiUtils.RateWithinWindow | vibe-coding-landing/src/lib/api-utils.ts:108-113 | within the window, allowed exactly when count < limit; allowing increments the count; refusing leaves the store unchanged |
| ApiUtils.RateOthersUnchanged | vibe-coding-landing/src/lib/api-utils.ts:98-113 | other identifiers' records are never touched |
| ApiUtils.RateKeepsCountsPositive | vibe-coding-landing/src/lib/api-utils.ts:100-113 | every stored count stays at least 1 |
| ApiUtils.WindowRoom | vibe-coding-landing/src/lib/api-utils.ts:108-113 | calls made up to and including resetTime allow at most max(0, limit − count) |
| ApiUtils.WindowBound | vibe-coding-landing/src/lib/api-utils.ts:96-113 | the calls of one window, starting from a fresh one, allow at most max(limit, 1), which is 5 by default; a call at exactly resetTime still counts as inside |
| ApiUtils.InfoMatchesDecision | vibe-coding-landing/src/lib/api-utils.ts:108-125 | within the window, with the default limit, remaining > 0 exactly when the next call is allowed |
| ApiUtils.ClientIp | vibe-coding-landing/src/lib/api-utils.ts:151 | the identifier is a non-empty IP; failing that, a non-empty forwarded-for header; failing both, "unknown". It is never empty |
| ApiUtils.FinishResponse | vibe-coding-landing/src/lib/api-utils.ts:157-164 | a throwing handler gives 500 "Internal server error"; otherwise the handler's response, with CORS headers when enabled |
| ApiUtils.Gate | vibe-coding-landing/src/lib/api-utils.ts:136-155 | the early response is `GateResponse` and the store `GateStore`: with CORS on, OPTIONS is answered first; then a verb other than `methods[0]` gets 405; then, with rate limiting on, the client's window is stepped and a refusal gets 429; otherwise no early response |
| ApiUtils.GateResponse | vibe-coding-landing/src/lib/api-utils.ts:136-155 | the response the middleware gives before the handler: the CORS preflight, then the 405 for a wrong verb, then the 429 of a refused rate limit, else none (proved in `PreflightFirst`, `WrongMethodRefused` and `HandlerRunsOnlyWhenAdmitted`) |
| ApiUtils.GateStore | vibe-coding-landing/src/lib/api-utils.ts:136-155 | the limiter store after the middleware: stepped only for a request that passes the CORS and method stages with rate limiting on |
| ApiUtils.PreflightFirst | vibe-coding-landing/src/lib/api-utils.ts:138-141 | with CORS on, OPTIONS gets the empty 200 before any method or rate-limit check, and the store is untouched |
| ApiUtils.WrongMethodRefused | vibe-coding-landing/src/lib/api-utils.ts:144-147 | a method other than the first listed one is refused with 405, before rate limiting |
| ApiUtils.HandlerRunsOnlyWhenAdmitted | vibe-coding-landing/src/lib/api-utils.ts:136-159 | the handler runs exactly when no earlier stage answers; a rate-limit denial gives 429 |
| ApiUtils.EmptyMethodListRefusesAll | vibe-coding-landing/src/lib/api-utils.ts:144-147 | an empty method list refuses every request that is not a preflight, since `methods[0]` is undefined |
| CountRoute.CountOf | vibe-coding-landing/src/app/api/count/route.ts:29-31 | the count is the result's data, or 0 when it is missing |
| CountRoute.IsHit | vibe-coding-landing/src/app/api/count/route.ts:17 | the cache answers when it holds a count younger than 60000 ms |
| CountRoute.CountResponse | vibe-coding-landing/src/app/api/count/route.ts:13-42 | the count endpoint's answer: the cached count on a hit; otherwise a 500 "Failed to fetch subscriber count" on a fetch error, or the fetched `data || 0` (proved in `HitIgnoresDatabase`, `ExpiredRefetches` and `FetchErrorKeepsCache`) |
| CountRoute.CountCacheAfter | vibe-coding-landing/src/app/api/count/route.ts:33-35 | the cache after a request: kept on a hit or a fetch error, otherwise the fetched count with the current time (proved in `CountStableWithinTtl`) |
| CountRoute.CountCache.CountHandler | vibe-coding-landing/src/app/api/count/route.ts:13-42 | the response is `CountResponse` and the cache `CountCacheAfter`: a hit (a cached count younger than 60000 ms) answers from the cache and touches nothing; otherwise a fetch error is a 500 with the cache kept, and a success answers `data || 0` and caches it with the time |
| CountRoute.HitIgnoresDatabase | vibe-coding-landing/src/app/api/count/route.ts:17-19 | on a hit, the response does not depend on the table or the service, reports the cached count, and keeps the cache |
| CountRoute.ExpiredRefetches | vibe-coding-landing/src/app/api/count/route.ts:10-35 | from 60000 ms elapsed on, it is a miss; an answered fetch reports the row count and stores it with the new time |
| CountRoute.FetchErrorKeepsCache | vibe-coding-landing/src/app/api/count/route.ts:24-27 | a failed fetch gives 500 and leaves the cache unchanged |
| CountRoute.CountStableWithinTtl | vibe-coding-landing/src/app/api/count/route.ts:17-35 | after a successful refetch, every request within the TTL is a hit with the same count, even with a changed table |
| CountRoute.Get | vibe-coding-landing/src/app/api/count/route.ts:45-48 | GET handling: the gate's early answer, otherwise the handler's response with CORS; the limiter is untouched |
| CountRoute.CountNotRateLimited | vibe-coding-landing/src/app/api/count/route.ts:45-48 | the count route never changes the rate-limit store; a GET always reaches the handler; other non-OPTIONS methods get 405 |
| CountRoute.CountPreflight | vibe-coding-landing/src/app/api/count/route.ts:51-57 | OPTIONS is an empty 200 with CORS headers, the same response `handleCors` gives |
| CountRoute.CountPreflightMatchesGate | vibe-coding-landing/src/app/api/count/route.ts:45-57 | the route's OPTIONS export gives what the wrapped GET handler's CORS stage gives, and leaves the limiter alone |
| SubscribeRoute.SubscribeHandler | vibe-coding-landing/src/app/api/subscribe/route.ts:7-60 | the response is `SubscribeResponse` and the table `SubscribeRows`: bad JSON is a 400; invalid sanitised data is a 400 with the joined last messages; then a failed check is a 500, a known email a 409, a failed insert a 500, and an insert a 200 with the new id; only the insert changes the table |
| SubscribeRoute.SubscribeResponse | vibe-coding-landing/src/app/api/subscribe/route.ts:7-60 | the handler's answer: 400 for bad JSON, else the answer for the sanitised body |
| SubscribeRoute.SanitizedResponse | vibe-coding-landing/src/app/api/subscribe/route.ts:19-25 | for sanitised data: 400 with the joined messages when it has errors, else the storing steps |
| SubscribeRoute.StoreResponse | vibe-coding-landing/src/app/api/subscribe/route.ts:27-55 | the storing steps' answer: 500 on a failed check, 409 for a present email, 500 on a failed insert, else 200 with the new id (proved in `CheckErrorNoInsert`, `KnownEmailConflict`, `InsertErrorRefused` and `NewEmailInserted`) |
| SubscribeRoute.SubscribeRows | vibe-coding-landing/src/app/api/subscribe/route.ts:7-60 | the table after the handler: changed only by the insert of valid sanitised data |
| SubscribeRoute.StoreRows | vibe-coding-landing/src/app/api/subscribe/route.ts:27-55 | the table after the storing steps: the insert's rows once an answered check found nothing, else unchanged |
| SubscribeRoute.ErrorMessage | vibe-coding-landing/src/app/api/subscribe/route.ts:20-24 | the 400 message: the values of the field-to-last-message map, joined by ", " (proved in `TwoFieldsMessage` and `BothFieldsMessage`) |
| SubscribeRoute.Store | vibe-coding-landing/src/app/api/subscribe/route.ts:27-55 | the steps after validation: check, then insert |
| SubscribeRoute.InvalidInputRefused | vibe-coding-landing/src/app/api/subscribe/route.ts:19-25 | invalid input gives 400 with the joined map of last messages, and the table is unchanged |
| SubscribeRoute.BothFieldsMessage | vibe-coding-landing/src/app/api/subscribe/route.ts:20-24 | with both fields failing, the message is the name's last error, then ", ", then the email's last error |
| SubscribeRoute.TwoFieldsMessage | vibe-coding-landing/src/app/api/subscribe/route.ts:20-24 | name errors followed by email errors give the last name message, ", ", then the last email message |
| SubscribeRoute.PutAllTwoFields | vibe-coding-landing/src/app/api/subscribe/route.ts:20-23 | name errors followed by email errors leave the map name then email, each with its field's last message |
| SubscribeRoute.PutAllOneField | vibe-coding-landing/src/app/api/subscribe/route.ts:20-23 | errors of a single field leave one entry holding that field's last message |
| SubscribeRoute.PutAllSnoc | vibe-coding-landing/src/app/api/subscribe/route.ts:21-23 | each error of the loop assigns its message to its field in the map built so far |
| SubscribeRoute.OneBadCharMessage | vibe-coding-landing/src/app/api/subscribe/route.ts:20-24 | a one-character name that is not a name character (such as "!") contributes only "Name contains invalid characters", the last of its two errors |
| SubscribeRoute.SanitisedDataOnly | vibe-coding-landing/src/app/api/subscribe/route.ts:13-45 | two bodies with the same sanitised data get the same response and the same table |
| SubscribeRoute.CheckErrorNoInsert | vibe-coding-landing/src/app/api/subscribe/route.ts:31-34 | a failed existence check gives 500 "Failed to check email existence" and inserts nothing |
| SubscribeRoute.KnownEmailConflict | vibe-coding-landing/src/app/api/subscribe/route.ts:36-38 | a present canonical email gives 409 and the table is unchanged |
| SubscribeRoute.NewEmailInserted | vibe-coding-landing/src/app/api/subscribe/route.ts:40-55 | a new email with answering calls gives 200 with the new id, and adds exactly the sanitised row |
| SubscribeRoute.NewEmailStored | vibe-coding-landing/src/app/api/subscribe/route.ts:40-55 | for sanitised data with a new email and answering calls, the response carries the new id and the one new row holds the data, the flag defaulting to false |
| SubscribeRoute.InsertErrorRefused | vibe-coding-landing/src/app/api/subscribe/route.ts:47-50 | valid data with a new email whose insert fails or throws gets 500 "Failed to subscribe. Please try again." and the table is unchanged |
| SubscribeRoute.InsertFailureStored | vibe-coding-landing/src/app/api/subscribe/route.ts:40-50 | for sanitised data with a new email and a failing insert, the storing steps answer 500 and write nothing |
| SubscribeRoute.ValidBodyStored | vibe-coding-landing/src/app/api/subscribe/route.ts:13-27 | a body that is valid once sanitised gets the storing steps' answer and table for its sanitised data |
| SubscribeRoute.SecondSubscribeConflicts | vibe-coding-landing/src/app/api/subscribe/route.ts:36-55 | of two valid subscriptions with the same canonical email, the first succeeds and the second gets 409 |
| SubscribeRoute.Post | vibe-coding-landing/src/app/api/subscribe/route.ts:63-67 | POST behind CORS, the method check and rate limiting, then the handler |
| SubscribeRoute.RateLimitedPostRefused | vibe-coding-landing/src/app/api/subscribe/route.ts:63-67 | a POST from a client over its limit gets 429 and the handler is not called |
| SubscribeRoute.SubscribePreflight | vibe-coding-landing/src/app/api/subscribe/route.ts:70-76 | OPTIONS is an empty 200 with CORS headers, the same response `handleCors` gives |
| SubscribeRoute.SubscribePreflightMatchesGate | vibe-coding-landing/src/app/api/subscribe/route.ts:63-76 | the route's OPTIONS export gives what the wrapped POST handler's CORS stage gives, and leaves the limiter alone |
| UseFormValidation.ValidateField | vibe-coding-landing/src/hooks/useFormValidation.ts:9-22 | the first error's message for name or email, "" exactly when that field is valid, and always "" for "subscribed" |
| UseFormValidation.ValidateForm | vibe-coding-landing/src/hooks/useFormValidation.ts:25-44 | the map holds each failing field's message; valid exactly when the map is empty |
| UseFormValidation.PutAtEnd | vibe-coding-landing/src/hooks/useFormValidation.ts:36-37 | assigning a new key appends the entry |
| UseFormValidation.FirstMessagesNonEmpty | vibe-coding-landing/src/hooks/useFormValidation.ts:13-17 | a field's first error always has a non-empty message |
| UseFormValidation.FormMapShape | vibe-coding-landing/src/hooks/useFormValidation.ts:25-44 | the only keys are "name" and "email", distinct, each with a non-empty message |
| UseFormValidation.TwoEntries | vibe-coding-landing/src/hooks/useFormValidation.ts:29-41 | a name entry then an email entry, each present only with a message, give distinct keys drawn from "name" and "email" |
| UseFormValidation.FormMapMeaning | vibe-coding-landing/src/hooks/useFormValidation.ts:25-44 | the map is empty exactly when both raw fields are valid, and holds each failing field's first message |
| UseFormValidation.ValidateAndSanitizeForm | vibe-coding-landing/src/hooks/useFormValidation.ts:69-90 | the data is sanitised; the map holds each field's last message from validating the sanitised data; `isValid` is copied from that validation |
| UseFormValidation.PutAllEmpty | vibe-coding-landing/src/hooks/useFormValidation.ts:76-79 | the map is empty exactly when there were no errors |
| UseFormValidation.LeadingSpaceFailsLive | vibe-coding-landing/src/hooks/useFormValidation.ts:15-17 | live validation sees the raw text: " a@b.co" is shown as malformed |
| UseFormValidation.LeadingSpacePassesSubmit | vibe-coding-landing/src/hooks/useFormValidation.ts:69-74 | submit validation sees the sanitised text: " a@b.co" becomes "a@b.co", which passes |
| UseFormValidation.OneBadCharMessages | vibe-coding-landing/src/hooks/useFormValidation.ts:11-13 | for the name "!", live validation shows the too-short message while submit keeps the invalid-characters message |
| UseFormValidation.FormValidation.UpdateFieldError | vibe-coding-landing/src/hooks/useFormValidation.ts:47-52 | sets exactly one key; every other entry is unchanged; the keys stay distinct |
| UseFormValidation.FormValidation.ClearFieldError | vibe-coding-landing/src/hooks/useFormValidation.ts:55-61 | removes exactly one key; every other entry is unchanged |
| UseFormValidation.FormValidation.ClearAllErrors | vibe-coding-landing/src/hooks/useFormValidation.ts:64-66 | the map is empty |
| UseSubscription.Subscription.StartSubmission | vibe-coding-landing/src/hooks/useSubscription.ts:11-12 | a submission starts with isSubmitting true and no error |
| UseSubscription.Subscription.FinishSubmission | vibe-coding-landing/src/hooks/useSubscription.ts:14-45 | whatever the outcome isSubmitting ends false; isSubmitted is set only by a success; a failure's message becomes the error |
| UseSubscription.Subscription.SubmitSubscription | vibe-coding-landing/src/hooks/useSubscription.ts:10-46 | the whole call: the error afterwards is exactly the result's error |
| UseSubscription.Subscription.ResetForm | vibe-coding-landing/src/hooks/useSubscription.ts:48-52 | all three back to their initial values |
| UseSubscription.Subscription.ClearError | vibe-coding-landing/src/hooks/useSubscription.ts:54-56 | only the error changes, to none |
| UseSubscription.OutcomeShape | vibe-coding-landing/src/hooks/useSubscription.ts:14-42 | success exactly when there is no error; an error message is never empty |
| UseSubscription.SubmitOutcome | vibe-coding-landing/src/hooks/useSubscription.ts:14-42 | a submission's result: the lookup error, the duplicate message for a present email, the insert error, or success with the new row (proved in `OutcomeShape`, `KnownEmailRefused`, `LookupErrorSurfaced` and `InsertErrorSurfaced`) |
| UseSubscription.SubmitRows | vibe-coding-landing/src/hooks/useSubscription.ts:26-38 | the table after a submission: the insert's rows once the lookup found nothing, else unchanged (proved in `SuccessStoresRawData`) |
| UseSubscription.KnownEmailRefused | vibe-coding-landing/src/hooks/useSubscription.ts:22-24 | a present email fails with "This email is already subscribed" and nothing is inserted |
| UseSubscription.LookupErrorSurfaced | vibe-coding-landing/src/hooks/useSubscription.ts:18-20 | a failed lookup's message is surfaced verbatim, and nothing is inserted |
| UseSubscription.InsertErrorSurfaced | vibe-coding-landing/src/hooks/useSubscription.ts:33-35 | a failed insert's message is surfaced verbatim |
| UseSubscription.SuccessStoresRawData | vibe-coding-landing/src/hooks/useSubscription.ts:26-38 | a success stores the form data as typed, with no trimming or lower-casing |
| UseSubscriberCount.Pow2 | vibe-coding-landing/src/hooks/useSubscriberCount.ts:53 | 2^n is at least 1 |
| UseSubscriberCount.Begin | vibe-coding-landing/src/hooks/useSubscriberCount.ts:24-26 | a non-retry fetch sets loading, clears the error and keeps the count; a retry changes nothing |
| UseSubscriberCount.AfterResult | vibe-coding-landing/src/hooks/useSubscriberCount.ts:28-67 | state and counter after a result: success shows `data || 0` and resets; a failure with retries left bumps the counter only; a failure at 3 shows the error and resets (proved in `SuccessResets`, `FailureRetries`, `FailureGivesUp` and `RetryBounded`) |
| UseSubscriberCount.RetryDelay | vibe-coding-landing/src/hooks/useSubscriberCount.ts:48-54 | the retry scheduled after a result: a failure that raises the counter to k (k at most 3) schedules a retry 2^k seconds later, anything else none (proved in `FailureRetries`) |
| UseSubscriberCount.SubscriberCountHook.BeginFetch | vibe-coding-landing/src/hooks/useSubscriberCount.ts:23-26 | the state becomes `Begin`: a non-retry fetch sets loading and clears the error, keeping the count and the time; a retry changes nothing; the counter and the interval are unchanged |
| UseSubscriberCount.SubscriberCountHook.OnFetchResult | vibe-coding-landing/src/hooks/useSubscriberCount.ts:28-67 | state and counter become `AfterResult` and the returned delay is `RetryDelay`: success shows `data || 0` and resets the counter; a failure with retries left only raises the counter to k and schedules a retry 2^k seconds later; the fourth failure shows the error and resets the counter; the counter stays in [0, 3] |
| UseSubscriberCount.SubscriberCountHook.StartInterval | vibe-coding-landing/src/hooks/useSubscriberCount.ts:71-79 | afterwards exactly one interval runs: a new one, held by the ref |
| UseSubscriberCount.SubscriberCountHook.StopInterval | vibe-coding-landing/src/hooks/useSubscriberCount.ts:82-87 | afterwards no interval runs and the ref is null |
| UseSubscriberCount.SubscriberCountHook.OnVisibility | vibe-coding-landing/src/hooks/useSubscriberCount.ts:105-112 | a hidden page stops the interval; a visible page runs exactly one |
| UseSubscriberCount.SubscriberCountHook.Mount | vibe-coding-landing/src/hooks/useSubscriberCount.ts:95-102 | mounting starts a first non-retry fetch and exactly one interval |
| UseSubscriberCount.SubscriberCountHook.Refresh | vibe-coding-landing/src/hooks/useSubscriberCount.ts:90-92 | a manual refresh or an interval tick starts a non-retry fetch |
| UseSubscriberCount.SubscriberCountHook.constructor | vibe-coding-landing/src/hooks/useSubscriberCount.ts:11-21 | the initial state: count null, loading, no error, never updated; counter 0; no interval |
| UseSubscriberCount.RetryBounded | vibe-coding-landing/src/hooks/useSubscriberCount.ts:43-66 | the retry counter stays in [0, 3] |
| UseSubscriberCount.SuccessResets | vibe-coding-landing/src/hooks/useSubscriberCount.ts:35-43 | a success shows the count (0 when missing), stops loading, has no error, resets the counter and schedules no retry |
| UseSubscriberCount.FailureRetries | vibe-coding-landing/src/hooks/useSubscriberCount.ts:48-56 | a failure with retries left leaves the visible state unchanged, increments the counter and schedules a retry after 2000, 4000 or 8000 ms |
| UseSubscriberCount.FailureGivesUp | vibe-coding-landing/src/hooks/useSubscriberCount.ts:58-66 | the failure after three retries shows the error, keeps the count, stops loading, records the time and resets the counter |
| UseSubscriberCount.ErrorOnlyAfterFourFailures | vibe-coding-landing/src/hooks/useSubscriberCount.ts:48-66 | from a fresh counter, up to three failures in a row leave the visible state as it was; the fourth shows its error with the old count and resets the counter |
| SubscriberCounter.Step | vibe-coding-landing/src/components/SubscriberCounter.tsx:32 | when the values differ, the step is the ceiling of a twentieth of the distance: at least 1 and at most the distance |
| SubscriberCounter.Tick | vibe-coding-landing/src/components/SubscriberCounter.tsx:31-44 | one tick: a step toward the target, or the target once the step reaches or passes it (proved in `TickApproaches` and `TickShrinksDistance`) |
| SubscriberCounter.TickApproaches | vibe-coding-landing/src/components/SubscriberCounter.tsx:31-44 | a tick moves strictly toward the target and never passes it: reaching or passing it yields exactly the target |
| SubscriberCounter.TickShrinksDistance | vibe-coding-landing/src/components/SubscriberCounter.tsx:35-44 | every tick strictly shrinks the distance to the target |
| SubscriberCounter.IterateConverges | vibe-coding-landing/src/components/SubscriberCounter.tsx:30-46 | ticking ends at exactly the target within as many ticks as the distance |
| SubscriberCounter.IterateBetween | vibe-coding-landing/src/components/SubscriberCounter.tsx:30-46 | every value shown on the way lies between the start and the target |
| SubscriberCounter.CounterDisplay.OnTick | vibe-coding-landing/src/components/SubscriberCounter.tsx:24-51 | a tick happens only when the count is loaded, not loading, and differs from the value shown; otherwise nothing changes |
| SubscriberCounter.CounterDisplay.Animate | vibe-coding-landing/src/components/SubscriberCounter.tsx:30-48 | the ticks stop exactly at the loaded count within as many ticks as the distance; already at the count, nothing happens |
| SubscriberCounter.ViewSelection | vibe-coding-landing/src/components/SubscriberCounter.tsx:54-100 | the skeleton shows exactly while loading with nothing shown; otherwise a non-empty error takes precedence over the message |
| SubscriberCounter.CounterView | vibe-coding-landing/src/components/SubscriberCounter.tsx:54-100 | the view: the skeleton while loading with nothing shown, then the error view for a non-empty error, else the message (proved in `ViewSelection`) |
| SubscriberCounter.Shown | vibe-coding-landing/src/components/SubscriberCounter.tsx:100 | `displayCount || count || 0`, a zero counting as missing (proved in `ShownPrefersDisplay`) |
| SubscriberCounter.ShownPrefersDisplay | vibe-coding-landing/src/components/SubscriberCounter.tsx:100 | the message uses the animated value, else the count, else 0 |
| SubscriberCounter.RefetchKeepsNumber | vibe-coding-landing/src/components/SubscriberCounter.tsx:54-100 | while a refetch loads, a counter already showing a number keeps showing its message |

## Left out

- Concurrency is not modelled: requests and events are sequential. In particular, the race between two subscribe requests in the non-atomic check-then-insert is not covered.
- Real timers, `Date.now()` and `new Date()` are not modelled. Time is a `now` parameter; a timer firing is an event method; a scheduled retry is the delay returned by `OnFetchResult`.
- The Supabase client and its query-builder chains are not modelled. The table is a sequence of rows, and each call's outcome is a `Backend` parameter.
- A thrown insert is taken to write nothing.
- The stored `updated_at`/`created_at` values are not modelled; both are given as a `now` argument.
- The exact text of the error PostgREST returns when `single()` sees no row is a model constant.
- `maybeSingle()` reports an error when several rows match. That case is not modelled, and the existence check reports presence instead. Under the unique-emails invariant it cannot arise.
- `getAllSubscribers` is not modelled: it is an admin read with no logic beyond the error wrapper.
- The `try/catch` blocks of both route handlers and the non-`Error` branch of the hooks' `catch` cannot be reached in the model, since every modelled call returns a result.
- `console.error`/`console.warn` logging is not modelled.
- `parseRequestBody` and `validateContentType` are not modelled. The request body is given already parsed, and a malformed one is `None`.
- A parsed body that lacks `name` or `email` is not modelled. In the program, `validateAndSanitizeSubscriber` then throws on `.trim()`/`.toLowerCase()` of `undefined` (lib/validations.ts:111-113). That call comes before the handler's `try` (app/api/subscribe/route.ts:13 against :27), so `withApiHandler`'s `catch` answers 500 "Internal server error" without CORS headers (lib/api-utils.ts:157-163). The model's body fields are always strings.
- Records: keys that look like array indices, which `Object.keys` lists first in ascending order, are not modelled; the association list keeps every key in insertion order.
- CountRoute.CountPreflight and SubscribeRoute.SubscribePreflight: the two `OPTIONS` exports differ only in their `Access-Control-Allow-Methods` text ("GET, OPTIONS" and "POST, OPTIONS"), which the model reduces to the CORS flag, so both are the response `handleCors` gives.
- NextRequest/NextResponse objects and the exact CORS header strings are not modelled; the headers are a flag on the response.
- Obtaining the client IP is modelled only as the choice among `request.ip`, the forwarded-for header and "unknown".
- `createApiError` is not modelled: it builds a record and has no logic.
- `formatWithCommas`, `formatPercentage` and `formatCurrency` are not modelled: they are locale and floating-point formatting.
- Formatters.FormatNumber: the digits before "K"/"M" use exact decimal rounding half up in place of `toFixed(1)` on a double, and they differ where the exact quotient has a 5 in the hundredths place and the nearest double lies below it: 1150 is "1.1K" in the program (1.15 is stored as 1.1499…) and "1.2K" in the model (`HundredthsFiveExample`), and so are 1450, 2150 and 1150000. An exact binary tie such as 1250 gives "1.3K" in both.
- Strings.ToLower: only ASCII letters are lower-cased, so Unicode case mapping is not modelled.
- Lengths count characters, not UTF-16 code units.
- UseFormValidation.ValidateField: the value is a string, so the boolean "subscribed" case takes no value.
- The presentational components are not modelled: styling, the skeleton's opacity, the card wrapper and `toLocaleTimeString`. The counter's views carry `lastUpdated` as a number.
- UseSubscriberCount.SubscriberCountHook: the unmount cleanup is `StopInterval`, and removing the visibility listener is not modelled. An interval tick and a pending retry can interleave in the program; the model runs events one after another.
