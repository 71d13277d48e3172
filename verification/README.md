# Customer search protocol — a Dafny model

This project models the incremental customer search of the CustomerSearchService repository. It has three parts:

- **The endpoint** `GET /api/customers/search` (module `Matcher`). It computes the effective page size and turns away short or blank queries. It matches customers by substring on name, address, postcode or any tag name. It answers with the total match count and the first page of matches in store order.
- **The browser client** `CustomerService.searchCustomers` (module `Client`). It has a short-query guard and sends the trimmed query with a limit that defaults to 10. Each attempt has a 30-second timeout, and there are at most two re-sends, one second apart. `handleError` turns a failure into a user-visible message.
- **The autocomplete component** (module `Autocomplete`).
  - The `results$` pipeline (`startWith`, `debounceTime`, `distinctUntilChanged`, `switchMap`) is an event-driven state: a pending value, the last value handed on, and the number of the latest search.
  - The component's fields and handlers form the class `CustomerAutocomplete`. Each method is proved to leave the fields as a pure transition function says, and to keep the class invariant `Valid()`.

Shared pieces:

- `Wire` holds the records that travel between the endpoint and the browser.
- `Text` holds white-space trimming, case folding, substring search and decimal rendering.
- `SeedExamples` runs the endpoint on the twelve customers the database seeder creates.
- `AutocompleteScenarios` drives the component through concrete event sequences.
- `Protocol` joins client and endpoint.

Time is not modelled as a clock.

- The expiry of the debounce timer is the event `DebounceElapsed`. The 150 ms blur callback is `BlurTimerFired`.
- The arrival of a search's outcome is `ResponseArrived(seqNo, completion)`.
- Each HTTP attempt is an input `Attempt(latencyMs, reply)`. The retry policy consumes one attempt per request it sends.

The customer store is a value given to the endpoint. A search is therefore a function of it and cannot change it.

Behaviour of the code that the model keeps, some of it easy to overlook:

- The effective limit has no lower clamp. `Math.Min(limit ?? searchLimit, searchLimit)` passes zero or a negative limit on, and the page is then empty.
- The endpoint does not trim. It tests `IsNullOrWhiteSpace` and then the untrimmed length, so `" a "` passes when two characters are required.
- The page is a prefix of the matches in store order. No ordering by identity is applied.
- Every failed attempt is retried, whatever its kind, including a 400 or a 404.
- There are at most three attempts, so at most two one-second delays are spent.
- A timeout reaches `handleError` as an `rxjs` `TimeoutError`. It has no `status`, so its message is `Server returned error code undefined: Timeout has occurred`.
- The highlight is reset when the input value changes, but not when new results arrive. When a list of `n` results arrives while the highlight is on index `n` or beyond of the old list, the highlight points past the end, and Enter selects nothing. One ArrowUp moves it to `max(h - 1, -1)`: back in range when it was exactly `n`, still out of range when it was `n + 1` or more. `AutocompleteScenarios.HighlightCanOutliveResults` exhibits this. The only bound kept in every state is `highlightedIndex >= -1`.
- The component has both a field `isLoading` and a subject `isLoading$`. Only the subject is ever updated, so the model's `isLoading` stands for the subject. It is the subject's value only as far as the subscription made in `ngOnInit` writes it; while the dropdown is open, other subscriptions write it too (see "## Left out").
- Lengths are what JavaScript's `length` and .NET's `Length` report: UTF-16 code units. A character outside the Basic Multilingual Plane (U+10000 and above, where most emoji lie) counts twice, so such a character alone passes both two-unit guards. A character inside that plane, such as U+2764, counts once and fails them.
- The two runtimes disagree on white space. JavaScript's `trim()` removes the byte-order mark U+FEFF, which .NET does not count as white space. .NET's `IsNullOrWhiteSpace` counts the next-line character U+0085, which `trim()` keeps. A query of two next-line characters is therefore sent by the client and answered by the endpoint as blank, with the empty response (`Protocol.NextLineQueryIsSentButRefused`).

`LIKE '%q%'` is modelled as plain substring containment after folding ASCII capitals to lower case. This is the behaviour of a case-insensitive collation on the characters the seed data uses.

## Model

| member | source | states |
|---|---|---|
| Text.Utf16Length | frontend/src/app/services/customer.service.ts:17 | the `length` of a string: one character counts one code unit inside the Basic Multilingual Plane and two outside it; in general between the number of characters and twice it, and equal to it when every character lies in that plane |
| Text.Utf16LengthAppend | frontend/src/app/services/customer.service.ts:17 | the length of a concatenation is the sum of the lengths, which with the one-character count fixes `Utf16Length` for every string |
| Text.TrimIsTrim | frontend/src/app/services/customer.service.ts:26 | `Text.Trim`, the model of `trim()`, yields the piece of the input that is left once only white space is cut from its two ends; it neither starts nor ends with white space and is empty exactly when the input is all white space |
| Text.TrimIdempotent | frontend/src/app/components/customer-autocomplete/customer-autocomplete.component.ts:268 | the query trimmed by the component and trimmed again by the service is unchanged by the second trim |
| Text.TrimmedBlankEndsWithNextLine | CustomerSearchService/Endpoints/CustomerSearchEndpoint.cs:26 | a non-empty trimmed string that `Text.IsBlank`, the model of `IsNullOrWhiteSpace`, still calls blank starts and ends with U+0085, the only white space `trim()` keeps |
| Text.ContainsIff | CustomerSearchService/Endpoints/CustomerSearchEndpoint.cs:40 | the substring test used for `LIKE '%q%'` holds exactly when the needle occurs at some position of the field |
| Text.NatToStringRoundTrip | frontend/src/app/services/customer.service.ts:59 | the decimal rendering of a status code reads back as the same number |
| Text.NatToString | frontend/src/app/services/customer.service.ts:59 | the rendering of a natural number is a non-empty string of decimal digits with no leading zero |
| Text.IntToString | frontend/src/app/services/customer.service.ts:59 | a rendered status starts with a minus sign exactly when it is negative, and the rest is decimal digits that read back as its absolute value |
| Matcher.EffectiveLimit | CustomerSearchService/Endpoints/CustomerSearchEndpoint.cs:24 | never above the ceiling; the ceiling when no limit is given; the caller's limit when it is at most the ceiling, with no lower bound |
| Matcher.Where | CustomerSearchService/Endpoints/CustomerSearchEndpoint.cs:40-43 | a customer is listed iff it is stored and satisfies `Matcher.IsMatch`, the filter: the query occurs in its name, address, postcode or at least one tag name |
| Matcher.WhereKeepsOrder | CustomerSearchService/Endpoints/CustomerSearchEndpoint.cs:38-43 | filtering keeps store order: matches of a concatenation are the matches of each part, in order |
| Matcher.WhereAllMatch | CustomerSearchService/Endpoints/CustomerSearchEndpoint.cs:38-43 | when every stored customer matches, the match list is the store itself |
| Matcher.TagNames | CustomerSearchService/Endpoints/CustomerSearchEndpoint.cs:50 | the tag names in the same order and number as the tags |
| Matcher.Project | CustomerSearchService/Endpoints/CustomerSearchEndpoint.cs:44-51 | the DTO keeps id, name, address and postcode, and lists the tags' names in order |
| Matcher.ProjectAll | CustomerSearchService/Endpoints/CustomerSearchEndpoint.cs:44-52 | one DTO per customer, position by position |
| Matcher.Take | CustomerSearchService/Endpoints/CustomerSearchEndpoint.cs:58 | a prefix of length `n` clipped to `[0, length]` |
| Matcher.Search | CustomerSearchService/Endpoints/CustomerSearchEndpoint.cs:24-67 | a query `Matcher.IsShortQuery` turns away (missing, blank, or fewer code units than configured) gives `(0, [])`; otherwise the count is the size of the full match list and the page is a prefix of that list's projection of length `min(max(limit, 0), count)`, each entry a projected matching stored customer, never longer than the limit or the ceiling |
| SeedExamples.CorpFindsMicrosoftByTag | CustomerSearchService/Data/DatabaseSeeder.cs:50-56 | "Corp" is in no scalar field of Microsoft UK Ltd, yet Microsoft is found through its Corporate tag |
| SeedExamples.ReadingFindsMicrosoftByAddress | CustomerSearchService/Data/DatabaseSeeder.cs:50-56 | "Reading" finds Microsoft UK Ltd through its address |
| SeedExamples.Ec2aFindsAmazonNotMicrosoft | CustomerSearchService/Data/DatabaseSeeder.cs:71-77 | "EC2A" finds Amazon Web Services by its postcode and does not find Microsoft UK Ltd |
| SeedExamples.SearchAllMatching | CustomerSearchService/Endpoints/CustomerSearchEndpoint.cs:57-58 | when all customers match, the count is the store size and the page the first `min(10, size)` projected customers |
| SeedExamples.BroadQueryIsTruncated | CustomerSearchService/Data/DatabaseSeeder.cs:34-120 | ", " matches all twelve seeded customers: count 12, page the first ten in store order |
| Client.Begin | frontend/src/app/services/customer.service.ts:16-27 | a missing query or one under two UTF-16 code units once trimmed is answered with `{[], 0}` and nothing is sent; otherwise the request carries the trimmed query and the limit, 10 by default |
| Client.Settle | frontend/src/app/services/customer.service.ts:31 | an attempt lasting 30000 ms or more is a timeout whatever it returned; otherwise its reply passes through |
| Client.HandleError | frontend/src/app/services/customer.service.ts:37-60 | ErrorEvent gives "Network error: …"; 0, 400, 404, 500 their fixed messages; any other status, and a timeout, "Server returned error code <status>: <message>" |
| Client.HandleErrorIsUnambiguous | frontend/src/app/services/customer.service.ts:45-60 | the message alone tells which branch of the classification was taken |
| Client.SendWithRetry | frontend/src/app/services/customer.service.ts:29-34 | one to `retries + 1` identical requests, one second of delay before each re-send; every attempt but the last failed; success delivers the last attempt's response; failure only after all attempts failed, with the last error classified |
| Client.SearchCustomers | frontend/src/app/services/customer.service.ts:16-34 | nothing is sent exactly for a short query, which gets the empty response; otherwise at most three identical requests with the trimmed query; the call fails iff all three attempts failed, with the third error's message |
| Client.FailureIsNeverEmptySuccess | frontend/src/app/services/customer.service.ts:33-64 | once a request is sent, the call delivers a response some attempt returned or fails with a non-empty message |
| Client.LateAnswersAreRetried | frontend/src/app/services/customer.service.ts:31-32 | two answers at or after the timeout and a third in time: the third is delivered after three requests and 2000 ms of delay |
| Client.BadRequestIsRetried | frontend/src/app/services/customer.service.ts:32 | a 400 is re-sent like any failure, and a following success is delivered |
| Client.ThreeServerErrorsFail | frontend/src/app/services/customer.service.ts:32-33 | three 500 answers end the call with the server-error message after three requests and 2000 ms |
| Autocomplete.PerformSearch | frontend/src/app/components/customer-autocomplete/customer-autocomplete.component.ts:254-268 | an empty query or one under `minChars` code units once trimmed yields `[]` without the service; a request goes out iff the trimmed query also meets the service's two characters, carrying the trimmed query and limit 10 |
| Autocomplete.Fire | frontend/src/app/components/customer-autocomplete/customer-autocomplete.component.ts:226-232 | the elapsed timer hands its value on iff one is waiting and it differs from the last handed on; a handed-on value starts search number `latest + 1`, awaited iff a request went out |
| Autocomplete.AppliedNeverRegresses | frontend/src/app/components/customer-autocomplete/customer-autocomplete.component.ts:230 | over any run the responses that get through belong to strictly increasing search numbers, none older than the latest at the start |
| Autocomplete.SupersededNeverApplied | frontend/src/app/components/customer-autocomplete/customer-autocomplete.component.ts:230 | a superseded search's response is never applied, however late it arrives |
| Autocomplete.BurstDispatchesLastOnly | frontend/src/app/components/customer-autocomplete/customer-autocomplete.component.ts:228 | a burst of values followed by one quiet period hands on only the last value, unless it equals the last one handed on |
| Autocomplete.RepeatedValueIsDropped | frontend/src/app/components/customer-autocomplete/customer-autocomplete.component.ts:229 | typing a value again after its search started hands nothing on |
| Autocomplete.Responded | frontend/src/app/components/customer-autocomplete/customer-autocomplete.component.ts:269-278 | a stale response changes nothing; an accepted one ends loading and the awaiting of the latest search, a page replaces the results, a failure records its message and leaves the results, and every other field (input, highlight, dropdown, request log, emitted values, blur callbacks) is unchanged |
| Autocomplete.Selected | frontend/src/app/components/customer-autocomplete/customer-autocomplete.component.ts:321-326 | the input shows the name, `searchChanged` emits it and the debounce timer restarts with it; the customer is emitted once; the dropdown closes and the highlight resets; results, error, loading, the running search and the blur callbacks are unchanged |
| Autocomplete.SelectionSearchesForName | frontend/src/app/components/customer-autocomplete/customer-autocomplete.component.ts:322 | after a selection the elapsed timer hands the customer's name on to a search, unless the name was the last value handed on |
| Autocomplete.KeyDown | frontend/src/app/components/customer-autocomplete/customer-autocomplete.component.ts:294-319 | no effect with the dropdown hidden or no results; ArrowDown `min(i+1, n-1)`, ArrowUp `max(i-1, -1)`, changing nothing else; Enter selects only an in-range highlight; Escape hides and resets and changes nothing else |
| Autocomplete.DebouncedKeepsInvariant | frontend/src/app/components/customer-autocomplete/customer-autocomplete.component.ts:254-268 | starting a search keeps the request log ordered and the loading flag tied to the awaited search |
| Autocomplete.NextKeepsInvariant | frontend/src/app/components/customer-autocomplete/customer-autocomplete.component.ts:226-246 | every handler keeps the component invariant |
| Autocomplete.NextMovesPipeline | frontend/src/app/components/customer-autocomplete/customer-autocomplete.component.ts:226-232 | every handler but a key press moves the component's pipeline by the pipeline's own step for the event it amounts to (typing, a click, clearing, the timer, a response) and leaves it alone otherwise |
| Autocomplete.RunMovesPipeline | frontend/src/app/components/customer-autocomplete/customer-autocomplete.component.ts:226-232 | over a run without key presses the component's pipeline is the pipeline driven by the projected events, so the pipeline lemmas speak about the component |
| Autocomplete.RunKeepsInvariant | frontend/src/app/components/customer-autocomplete/customer-autocomplete.component.ts:212-222 | the invariant holds in every reachable state: loading exactly while the latest search is awaited, requests numbered in increasing order, highlight at least -1 |
| Autocomplete.ArrowDownStopsAtLast | frontend/src/app/components/customer-autocomplete/customer-autocomplete.component.ts:300-303 | after `k` ArrowDown presses from no highlight, the highlight is on result `min(k, n) - 1`, never wrapping, and nothing else changed |
| Autocomplete.CustomerAutocomplete.constructor | frontend/src/app/components/customer-autocomplete/customer-autocomplete.component.ts:225-247 | construction and `ngOnInit` give the initial state, with `''` waiting for the debounce timer |
| Autocomplete.CustomerAutocomplete.SetValue | frontend/src/app/components/customer-autocomplete/customer-autocomplete.component.ts:238-241 | the new state is `Autocomplete.ValueChanged` of the old: a value change emits the value (`''` for null), resets the highlight and restarts the timer |
| Autocomplete.CustomerAutocomplete.DebounceElapsed | frontend/src/app/components/customer-autocomplete/customer-autocomplete.component.ts:254-268 | the new state is `Autocomplete.Debounced` of the old: a handed-on value clears the error and either shows `[]` at once or turns loading on and records the request |
| Autocomplete.CustomerAutocomplete.ResponseArrived | frontend/src/app/components/customer-autocomplete/customer-autocomplete.component.ts:269-278 | the fields become exactly `Responded` of the old ones |
| Autocomplete.CustomerAutocomplete.OnFocus | frontend/src/app/components/customer-autocomplete/customer-autocomplete.component.ts:282-284 | shows the dropdown and changes nothing else |
| Autocomplete.CustomerAutocomplete.OnBlur | frontend/src/app/components/customer-autocomplete/customer-autocomplete.component.ts:286-292 | only schedules one more hiding callback |
| Autocomplete.CustomerAutocomplete.BlurTimerFired | frontend/src/app/components/customer-autocomplete/customer-autocomplete.component.ts:288-291 | hides the dropdown and resets the highlight |
| Autocomplete.CustomerAutocomplete.SelectCustomer | frontend/src/app/components/customer-autocomplete/customer-autocomplete.component.ts:321-326 | the fields become exactly `Selected` of the old ones |
| Autocomplete.CustomerAutocomplete.Clear | frontend/src/app/components/customer-autocomplete/customer-autocomplete.component.ts:332-336 | the input becomes `''` as a value change, the dropdown closes, the highlight resets |
| Autocomplete.CustomerAutocomplete.OnKeyDown | frontend/src/app/components/customer-autocomplete/customer-autocomplete.component.ts:294-319 | the fields become exactly `KeyDown` of the old ones |
| AutocompleteScenarios.StaleResponseIsDiscarded | frontend/src/app/components/customer-autocomplete/customer-autocomplete.component.ts:230 | two searches answered out of order: the newer page is shown, loading is over, and the late older outcome, page or error, has no effect |
| AutocompleteScenarios.TypeBurst | frontend/src/app/components/customer-autocomplete/customer-autocomplete.component.ts:238-241 | typing a burst emits every value and starts no search; only the last value waits for the timer |
| AutocompleteScenarios.BurstSendsOneRequest | frontend/src/app/components/customer-autocomplete/customer-autocomplete.component.ts:228 | a burst then one pause emits every value but sends a single request, for the trimmed last value |
| AutocompleteScenarios.HighlightCanOutliveResults | frontend/src/app/components/customer-autocomplete/customer-autocomplete.component.ts:244-246 | results arriving do not reset the highlight: it can stay on index 2 of a one-entry list, and Enter then selects nobody |
| Protocol.SentQueryPassesServerGuard | CustomerSearchService/Endpoints/CustomerSearchEndpoint.cs:26 | when the endpoint asks for at most two code units, every query the client sends meets the length test, and the endpoint turns it away exactly when it is blank to .NET, which needs U+0085 at both ends |
| Protocol.NextLineQueryIsSentButRefused | CustomerSearchService/Endpoints/CustomerSearchEndpoint.cs:26 | two U+0085 characters are sent by the client and answered by the endpoint with the empty response |
| Protocol.AstralCharacterIsLongEnough | frontend/src/app/services/customer.service.ts:17 | one character outside the Basic Multilingual Plane is sent by the client and searched for by the endpoint under the default settings |
| Protocol.DefaultPageIsAtMostTen | frontend/src/app/services/customer.service.ts:16 | with the client's default limit, the page has at most ten entries and never more than the endpoint's ceiling |
| Protocol.RoundTrip | frontend/src/app/services/customer.service.ts:29-34 | an in-time first answer from the endpoint is delivered unchanged after a single request, and every customer in it is a stored match of the trimmed query |

## Left out

- SQL `LIKE` specifics: the query is interpolated into the pattern unescaped, so `%`, `_` and the SQL Server character classes `[...]` and `[^...]` in it act as pattern syntax in the database. The model treats every query as literal text. Case folding covers ASCII capitals only, standing in for the database collation.
- `trackByCustomerId` is a rendering key for the template (the customer's id) and has no behaviour to model. The template, the styles and the `mouseenter` highlight are rendering and not modelled.
- The template subscribes to `results$` again through two `async` pipes (component.ts lines 36 and 45), inside the `*ngIf` on `showDropdown`. Each of those subscriptions runs its own debounce and its own `performSearch`, which also writes `isLoading$`, `errorMessage` and `errorMessage$`. Only the subscription made in `ngOnInit` is modelled. What the model therefore does not capture, while the dropdown is open:
  - the loading indicator and the error can be changed by a template subscription, so loading can end before the modelled search is answered;
  - the list the user sees and clicks is the line-45 subscription's, not `currentResults`;
  - a subscription created when the dropdown reopens starts again from `startWith('')`, so after the debounce period it shows `[]` and clears the error, while `onKeyDown` still walks the old `currentResults`, and Enter can select a customer the user cannot see.
- Real time is not modelled. The debounce window, the blur delay, the timeout and the retry delay are events or inputs. The model records the delay the retry policy waits, not when anything happens.
- A reply arriving exactly at 30000 ms is treated as a timeout. The tie between the timer and the reply is not modelled.
- Logging (`console.error`, `ILogger`) and the `Stopwatch` are not modelled.
- HTTP transport and query-string encoding are not modelled. `Client.Begin` takes the limit as an optional integer, where absence stands for `undefined`.
- Client.Begin: a `null` limit is not modelled. The default `= 10` covers only `undefined`, so `limit.toString()` throws a `TypeError` on `null` and nothing is sent. The component never passes a limit.
- Text.Utf16Length: strings are sequences of Unicode scalar values, so a lone surrogate, which a JavaScript string can hold, cannot be written down in the model.
- `ngOnDestroy` and the `takeUntil` teardown are not modelled.
- Storage failures of the endpoint (an exception from the database) are not modelled. The store is a value.
- Host setup, dependency registration, CORS, the EF Core mapping and the seeding I/O are not modelled. The seeded rows appear only as a constant store for examples, with ids in insertion order.
- Aliasing: the component is one object, and no other code holds references to its fields. Emitted events are recorded as sequences (`searchChanged`, `customerSelected`) rather than delivered to listeners.
