# Concierge request pipeline — a Dafny model

This project models the one part of the concierge marketing site that has
behaviour worth stating: the path a "concierge request" takes from the
multi-step form to the `POST /api/request` endpoint.

- **Rate limiter** (`rate_limit.dfy`, module `RateLimit`): a fixed-window
  counter per client key. `Limiter` is a class holding the key → entry map;
  `Check` creates, replaces or increments the key's entry or refuses the call,
  after sweeping out expired entries when the map holds more than 1000 keys.
  The three-way decision is the pure function `Admit`; the sweep is the loop
  `SweepExpired`. `Replay` follows sequential calls on one key, and the lemmas
  about it show that a window admits at most `limit` calls.
- **Request validator** (`validations.dfy`, module `Validation`): the ten-field
  schema. `FieldOk` is the rule of one field, `Valid` their conjunction, and
  `Parse` returns the typed request or every failing field.
- **Submission handler** (`request_route.dfy`, module `RequestRoute`): the
  client key taken from `x-forwarded-for`, the budget-table lookup, the row
  written to the database, and the response. `Handle` is everything after the
  limiter has answered. `Post` runs the limiter and then `Handle`.
  `RepeatedSubmissions` replays a burst of submissions from one client against
  a fresh limiter of 5 calls per minute.
- **Membership form** (`membership_form.dfy`, module `MembershipForm`): the
  four steps and the fields each one validates, the bounded step counter
  (`GoNext`/`GoBack`), and the toggling of the pillar and vibe-tag selections.
- `js_values.dfy` (module `JsValues`) holds what the pipeline borrows from
  JavaScript. It defines `Option`/`Result` and the `Raw` view of a JSON field.
  It also models `length` in UTF-16 code units, the whitespace `trim()` removes,
  and `String(n)` for integers, with its inverse.

Inputs the code reads from its environment are parameters:
- the clock is `now`, in milliseconds;
- the decoded JSON body is a `BodyInput`;
- email syntax is `isEmail`;
- "both database settings are present" is `configured`;
- the database insert is the function `insert`, which returns an id, returns
  an error, or throws.

Points where the model follows the code's literal behaviour:
- The client key falls back to `"anonymous"` only when `x-forwarded-for` is
  absent. An empty header gives the empty key. A header of only commas or
  spaces also gives the empty key.
- `party_size` is only range-checked, not checked to be an integer.
- The budget label is only checked to be non-empty, not checked against the
  budget table. The OpenAPI document advertises enum checks on
  `budget_range`, `pillars` and `vibe_tags` that the validator does not make.
- With a limit below 1, the first call of every window is still admitted.

## Model

| member | source | states |
|---|---|---|
| `RateLimit.Admit` | src/lib/rate-limit.ts:33-47 | A missing or expired entry opens a window of one call, admitted. A live entry at the limit refuses the call, with remaining 0 and the entry left uncounted. Otherwise the count rises by exactly one and the window end is kept. `remaining = limit - count`, `reset` is the stored window end, and for `limit >= 1` the count stays in 1..limit and `remaining` in 0..limit-1 |
| `RateLimit.SweepExpired` | src/lib/rate-limit.ts:27-31 | The sweep deletes exactly the entries whose window has ended. Every live entry survives, unchanged |
| `RateLimit.Limiter.constructor` | src/lib/rate-limit.ts:12-19 | A new limiter has the given interval and limit and an empty map |
| `RateLimit.Limiter.Check` | src/lib/rate-limit.ts:22-48 | The result and the new map follow `Admit` on the key's entry as read before the sweep. The map is swept only above 1000 keys. No other key's entry changes. Without a sweep, no other key appears or disappears, and a live entry is never swept. The count invariant is kept |
| `RateLimit.ReplayWithinWindow` | src/lib/rate-limit.ts:33-47 | In a window already holding `count` calls, the i-th further call is admitted iff `count + i < limit`, and every call reports the same window end |
| `RateLimit.WindowAdmitsAtMostLimit` | src/lib/rate-limit.ts:33-47 | Calls made before a newly opened window ends: the i-th (from 0) is admitted iff `i < limit` (or it is the opening call). With limit 5 the sixth is refused |
| `RateLimit.ExpiredWindowStartsOver` | src/lib/rate-limit.ts:33-35 | Once the window has ended, the next call is admitted with count 1, `remaining = limit - 1` and a new window end |
| `RateLimit.Replay` | src/lib/rate-limit.ts:22-48 | Sequential calls on one key give one result per call, in call order; the two lemmas below state what each result is |
| `Validation.FieldOk` | src/lib/validations.ts:4-26 | Every field but the notes must hold a well-typed value to pass. Absent notes pass |
| `Validation.Valid` | src/lib/validations.ts:3-27 | The body passes iff no field of the schema is among the failing fields |
| `Validation.FailingFields` | src/lib/validations.ts:3-27 | The fields reported are exactly the listed fields whose rule fails |
| `Validation.Parse` | src/lib/validations.ts:3-27 | Parsing succeeds iff the body is an object and every field rule holds. The result carries the submitted values unchanged. On failure every failing field, and only those, is reported. A non-object body fails with no field listed |
| `Validation.NameNeedsTwoCharacters` | src/lib/validations.ts:4 | A one-character name in the Basic Multilingual Plane is refused (a character outside it counts as two units and passes); a two-character name is accepted |
| `Validation.PhoneIsLengthOnly` | src/lib/validations.ts:6 | Any phone of ten characters or more passes, with no format check. Nine characters of the Basic Multilingual Plane fail |
| `Validation.DatetimeBoundary` | src/lib/validations.ts:7-15 | An event exactly 48 hours ahead passes; one millisecond less fails, one hour ahead fails, and an unparseable date fails |
| `Validation.PartySizeBounds` | src/lib/validations.ts:17-20 | Party sizes 1 and 10000 pass; 0 and 10001 fail |
| `Validation.BudgetRangeIsNonEmptyOnly` | src/lib/validations.ts:21 | A budget label passes iff it is non-empty, whether or not the budget table lists it |
| `Validation.ListRules` | src/lib/validations.ts:22-25 | Pillars pass iff non-empty, whatever their text. Vibe tags pass even when empty |
| `Validation.NotesNeverDecide` | src/lib/validations.ts:26 | Whether notes are present or absent never changes whether the body is valid |
| `Validation.SampleRequestPasses` | src/lib/__tests__/validations.test.ts:4-23 | The sample request of the validator's tests, 72 hours ahead, is valid |
| `JsValues.Utf16LengthBounds` | src/lib/validations.ts:4-6 | The JavaScript length of a string lies between its character count and twice that. It equals the character count for Basic Multilingual Plane text |
| `JsValues.Trim` | src/app/api/request/route.ts:12-14 | The result is an infix of the string with only whitespace before and after it, so only whitespace is removed and only at the two ends. The result neither starts nor ends with whitespace |
| `JsValues.TrimRemovesPadding` | src/app/api/request/route.ts:12-14 | A trimmed string padded with whitespace on either side trims back to itself |
| `JsValues.TrimIdempotent` | src/app/api/request/route.ts:12-14 | Trimming twice is trimming once |
| `JsValues.IntStringRoundTrip` | src/app/api/request/route.ts:24 | The header text `String(n)` reads back as `n` |
| `RequestRoute.FirstSegment` | src/app/api/request/route.ts:12-14 | The first segment is the prefix of the header up to, not including, its first comma; it is the whole header when there is none |
| `RequestRoute.ClientKey` | src/app/api/request/route.ts:12-14 | Without the header the key is "anonymous". With it, the key is the header's first segment with only the whitespace at its two ends cut off: it holds no comma and neither starts nor ends with whitespace |
| `RequestRoute.FirstSegmentStopsAtComma` | src/app/api/request/route.ts:12-14 | The first segment of `first + "," + rest` is `first` |
| `RequestRoute.ClientKeyTakesFirstHop` | src/app/api/request/route.ts:12-14 | Hops after the first comma never change the key |
| `RequestRoute.ClientKeyOfPlainAddress` | src/app/api/request/route.ts:12-14 | A bare address is its own key. An empty header gives the empty key, not "anonymous" |
| `RequestRoute.ClientKeyTrimsFirstHop` | src/app/api/request/route.ts:12-14 | Whitespace around the first hop is dropped and later hops are ignored: the key of `" 10.0.0.1 ,x"` is `"10.0.0.1"` |
| `RequestRoute.FindBudget` | src/app/api/request/route.ts:48-50 | Returns the first table row with the label, or none when no row has it |
| `RequestRoute.BudgetBounds` | src/app/api/request/route.ts:48-52 | The bounds are the matching row's min and max, or 500 and 100000 when no row matches. Always `500 <= min < max <= 100000` |
| `RequestRoute.BudgetLabelsDistinct` | src/lib/constants.ts:165-172 | No two rows of the budget table share a label |
| `RequestRoute.ToRow` | src/app/api/request/route.ts:78-91 | The row carries the request's fields and the budget bounds. Its status is always "new". Its notes are null exactly when the notes are missing or empty |
| `RequestRoute.RateHeaders` | src/app/api/request/route.ts:38-41 | A response carries exactly the two rate-limit headers, and each reads back as the number it was given |
| `RequestRoute.Handle` | src/app/api/request/route.ts:17-128 | 429 iff the limiter refused, whatever the body, with "Too many requests", Remaining "0" and the window end, and nothing written. Unparseable JSON gives 500 "Internal server error" with no headers. 400 iff the body fails the schema, with "Validation failed" and the failing fields. A valid body in demo mode gives 200 with id `"demo-" + now` and nothing written. A valid body when configured writes its row; the insert's id gives 200, its error gives 500 "Failed to save request", and its throw gives 500 "Internal server error" with no headers. Every response but the outer catch's carries both rate-limit headers |
| `RequestRoute.Post` | src/app/api/request/route.ts:10-129 | The limiter is consulted first, under the client key; its new map and the reply follow `Check` and `Handle` |
| `RequestRoute.RepeatedSubmissions` | src/app/api/request/__tests__/route.test.ts:63-74 | On a fresh route, the submissions from one client within a minute are answered 429 exactly from the sixth on, whatever the bodies |
| `RequestRoute.BurstStep` | src/app/api/request/__tests__/route.test.ts:63-74 | In a burst from one client inside one window, a submission is admitted iff fewer than five came before it, and the limiter map moves to the next burst state |
| `MembershipForm.StepOf` | src/components/membership/membership-form.tsx:19-28 | Every schema field belongs to exactly one step |
| `MembershipForm.StepsPartitionSchema` | src/components/membership/membership-form.tsx:19-28 | The steps' field lists are pairwise disjoint and together are exactly the ten schema fields |
| `MembershipForm.Without` | src/components/membership/membership-form.tsx:79 | Filtering removes every occurrence of the item and keeps every other item with its number of repeats. It changes nothing when the item is absent |
| `MembershipForm.WithoutConcat` | src/components/membership/membership-form.tsx:79 | Filtering a concatenation filters each part and joins the results, so the kept items stay in their order |
| `MembershipForm.WithoutKeepsOrder` | src/components/membership/membership-form.tsx:79 | Removing the item from between two runs that lack it gives the two runs joined, in order |
| `MembershipForm.Toggled` | src/components/membership/membership-form.tsx:76-82 | Toggling flips the item's membership and keeps every other item's. An absent item is appended at the end. A present item is removed with all its repeats, and every other item keeps its number of repeats and its order, as `Without` gives them |
| `MembershipForm.WithoutAppended` | src/components/membership/membership-form.tsx:76-82 | Removing an item just appended to a list without it gives the list back |
| `MembershipForm.ToggleTwiceRestores` | src/components/membership/membership-form.tsx:76-82 | Toggling an unselected item twice restores the selection exactly |
| `MembershipForm.ToggleSelectedTwice` | src/components/membership/membership-form.tsx:76-82 | Toggling a selected item twice drops its duplicates and moves it to the end |
| `MembershipForm.NextStep` | src/components/membership/membership-form.tsx:63-70 | Next advances by one iff the step's fields pass and a later step exists. The step stays within 0..3 |
| `MembershipForm.PrevStep` | src/components/membership/membership-form.tsx:72-74 | Back moves one step down iff not on the first step. The step stays within 0..3 |
| `MembershipForm.StepValid` | src/components/membership/membership-form.tsx:64-66 | A step passes iff none of its fields is among the failing fields |
| `MembershipForm.AllStepsIffValid` | src/components/membership/membership-form.tsx:19-28 | Every step passing is exactly the whole schema passing |
| `MembershipForm.BackUndoesNext` | src/components/membership/membership-form.tsx:63-74 | An advancing Next is undone by Back, and a moving Back by a passing Next |
| `MembershipForm.FormState.constructor` | src/components/membership/membership-form.tsx:38-57 | The form starts on step 0, with empty selections and empty notes |
| `MembershipForm.FormState.GoNext` | src/components/membership/membership-form.tsx:63-70 | The step becomes `NextStep` of the old step and the verdict on that step's fields, so it stays within 0..3 |
| `MembershipForm.FormState.GoBack` | src/components/membership/membership-form.tsx:72-74 | The step becomes `PrevStep` of the old step, so it stays within 0..3 |
| `MembershipForm.FormState.TogglePillar` | src/components/membership/membership-form.tsx:76-82 | The pillar selection becomes its toggle, with an unset selection taken as empty. No other field changes |
| `MembershipForm.FormState.ToggleVibe` | src/components/membership/membership-form.tsx:84-90 | The vibe-tag selection becomes its toggle, with an unset selection taken as empty. No other field changes |

## Left out

- Clock reads (`Date.now()`, `new Date()`) are the parameter `now`. One POST
  reads the clock three times: in the limiter, in the validator and for the
  demo id. All three are modelled as the same instant.
- Date-string parsing (`new Date(val)`) is not modelled. `datetime` is the
  millisecond instant the string parses to. A string that parses to NaN is
  `Malformed`, and the rule then fails, as it does in the code.
- Email syntax (zod's `.email()` regular expression) is the parameter `isEmail`.
- `party_size` coercion (`z.coerce.number()`) and JavaScript number semantics
  are not modelled. The field is an integer, or `Absent`/`Malformed` for a value
  that coerces to NaN. Fractional sizes, which the code accepts, are not
  represented.
- The per-field error messages in zod's flattened error are not modelled. The
  400 response lists the failing field names only.
- JSON decoding (`request.json()`) is reduced to its outcome: a decoded value
  (`Submission`), or a thrown error that reaches the outer catch.
- `NextResponse`, the database client, error reporting to the observability
  service, and the environment variables are external. The insert is the
  function `insert`, and its result may be an id, an error or a throw. The two
  settings are the flag `configured`.
- `datetime` is stored in the row as its instant, not as the submitted string.
- Overlapping requests that share the limiter map are not modelled; calls to
  `Check` are sequential. Overlapping `goNext` calls are not modelled either:
  each awaits validation and then applies `s => s + 1` after a check on a stale
  step.
- `IntString` covers integers below 10^21 in magnitude. `String(n)` uses
  exponent notation above that, which no timestamp or count here reaches.
- The form's progress percentage, rendering, animation, the `fetch` in
  `onSubmit`, and the other pages and components are UI. The request form's
  `togglePillar`/`toggleVibe` are the same code as the membership form's, so
  `Toggled` models both.
- Static content (the pillar, package and vibe-tag catalogues) is not modelled.
  The OpenAPI document and the type and configuration files are not modelled
  either. Only the budget table is transcribed.
