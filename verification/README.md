# Moonbot dashboard and deployment webhook — a Dafny model

This project models the logic core of the Moonbot front end and of its
deployment webhook server.

- **The webhook server** (`webhook_server.js`) listens for GitHub pushes. It
  checks the HMAC-SHA256 signature and runs `deploy.sh`, with only one
  deployment at a time. It also reports its state on `/status`.
- **The API client** (`src/api.js`) fetches calls, chat calls, chats and
  server information. It retries with exponential backoff, turns HTTP
  statuses into messages, normalises call dates and sorts calls newest
  first.
- **The error classifier** (`src/utils/errorUtils.js`) turns error messages
  into the texts the pages show.
- **The pages:**
  - the pagination bar (`Pagination.jsx`);
  - the group list, with chat-id deduplication and row navigation
    (`GroupList.jsx`);
  - the information panel, with the running-time format (`Info.jsx`);
  - the call list's load and retry controller (`CallList.jsx`);
  - the group page's performance figures (`GroupPage.jsx`);
  - the account context's reducers (`AccountProvider.jsx`).

There is one module per source file. Three shared modules sit beside them:
- `Common`: options, substring search, number-to-text conversion.
- `JsValues`: JavaScript values, truthiness and property access.
- `RetryPolicy`: the retry-counter policy that `Info.jsx`,
  `GroupList.jsx` and `GroupPage.jsx` all repeat.

Code that updates state step by step is modelled imperatively:
- as classes whose methods state the new state: the webhook's
  `deploymentState`, the deploy child process, the request body reader, and
  the Info, GroupList and CallList components;
- as methods with loops and their invariants: `withRetry`, the page-set
  loop, the item loop and the group de-duplication pass.

Pure code is modelled as functions with lemmas.

Calls into code the model cannot see become parameters:
- the HMAC digest;
- `JSON.parse`;
- `String()` of a chat id;
- `Date` parsing and `Date.now()`;
- `toFixed(2)`;
- the outcome of each `fetch`.

Numbers are reals (no NaN, infinities or negative zero), and running times
are whole seconds.

## Model

| member | source | states |
|---|---|---|
| Webhook.ConfiguredSecret | webhook_server.js:28-34 | an unset or empty `GITHUB_WEBHOOK_SECRET` falls back to the placeholder; the secret is never empty |
| Webhook.ValidateSignature | webhook_server.js:60-71 | with the placeholder (or empty) secret every request passes; otherwise it passes iff the header is exactly `sha256=` + hex HMAC of the raw body |
| Webhook.SignatureUnique | webhook_server.js:66-70 | with a real secret, exactly one header value is accepted for a given body |
| Webhook.ConfiguredSecretNeverEmpty | webhook_server.js:30-64 | because of the fallback, the check is off exactly when the secret is the placeholder |
| Webhook.ConcatPrefix | webhook_server.js:91-100 | captured output only grows at its end: the concatenation of the first k chunks is a prefix of the whole |
| Webhook.Gateway.constructor | webhook_server.js:37-42 | the initial deployment state: no last deployment, not deploying, no error, count 0 |
| Webhook.Gateway.ExecuteDeploy | webhook_server.js:74-89 | while deploying: returns "already in progress" and changes nothing; otherwise closes the gate, adds one to the counter and spawns a fresh process with empty output |
| Webhook.Gateway.Snapshot | webhook_server.js:190-197 | the `/status` report carries the whole `deploymentState`: last deployment, gate, last error and counter |
| Webhook.DeployProcess.OnStdout | webhook_server.js:94-96 | standard output is the in-order concatenation of its chunks |
| Webhook.DeployProcess.OnStderr | webhook_server.js:98-100 | standard error is the in-order concatenation of its chunks |
| Webhook.DeployProcess.OnClose | webhook_server.js:102-118 | gate reopens, completion time recorded, counter kept; code 0 clears the error and resolves success; any other code (or null) records code and output and resolves the numbered failure message; only the first resolution counts |
| Webhook.DeployProcess.OnError | webhook_server.js:120-126 | gate reopens, launch error recorded, completion time not touched, promise resolved with "Failed to start deployment: …" unless already resolved |
| Webhook.TwoTriggers | webhook_server.js:74-81 | two triggers during one deployment: the second is skipped and the counter moves once |
| Webhook.DeployResponse | webhook_server.js:168-174 | a triggered deployment is answered 200 with its result, whatever the outcome |
| Webhook.Decide | webhook_server.js:146-186 | the code's order: unparsable JSON gives 400 before the signature is checked, then 401 exactly for a parsed body with a bad signature; deploy iff the event is `push`, `ref` is exactly `refs/heads/master` and the commit-id log line can be evaluated; a push to master whose commit id cannot be read gives 400; a non-push event takes no action |
| Webhook.DecisionResponse | webhook_server.js:156-185 | 400 "Invalid webhook payload", 401 "Invalid signature", 200 "Webhook received but no action taken" |
| Webhook.InvalidJsonBeatsSignature | webhook_server.js:149-161 | a body that is not JSON is answered 400 whatever the signature header |
| Webhook.DevelopmentModeIgnoresSignature | webhook_server.js:60-64 | with the placeholder secret, the signature header never changes the decision |
| Webhook.OtherBranchNoAction | webhook_server.js:164-179 | a signed push whose payload is an object, array or primitive with a `ref` other than master is answered 200 "no action taken" without deploying |
| Webhook.WebhookRequest.OnData | webhook_server.js:139-144 | the body is the chunks in order; the request is destroyed exactly when the body exceeds 1 MiB |
| Webhook.WebhookRequest.OnEnd | webhook_server.js:146-186 | a destroyed request gets no answer; a non-deploy decision is answered at once without touching the gate; a deploy decision while deploying is answered "already in progress"; otherwise a fresh process is awaited with the gate closed and the counter up by one |
| Webhook.RouteOf | webhook_server.js:209-225 | OPTIONS is answered before the path is looked at; `/webhook`, `/status` and `/health` are the only known paths |
| Webhook.DispatchRequest | webhook_server.js:131-225 | only a POST to `/webhook` reads a body; any other method there gets 405; unknown paths get 404; `/status` answers 200 with status "running", the current state, the uptime and the timestamp; `/health` answers 200 with status "healthy" and the timestamp |
| Api.CreateErrorMessage | src/api.js:15-39 | the fixed text for 404/500/403/401/429/503 (404 and 403 name the endpoint, defaulting to "endpoint"); "Client error" for other 4xx, "Server error" for other ≥500, "HTTP n: Unknown error occurred." below 400 |
| Api.ErrorMessageIgnoresEndpoint | src/api.js:15-39 | only the 404 and 403 texts depend on the endpoint name |
| Api.NotFoundMessageMentions | src/api.js:16-20 | the 404 text contains "404" and the endpoint name |
| Api.Delays | src/api.js:80-85 | the first wait is `initialDelayMs` and each later wait doubles the one before |
| Api.WithRetry | src/api.js:67-94 | at most `maxRetries` calls; returns the first success, with every earlier attempt failed and the waits 1·, 2·, 4·… the initial delay between them; after `maxRetries` failures throws "Failed to <op> after <n> attempts: <last message>"; with `maxRetries ≤ 0` never calls and resolves to nothing |
| Api.WithRetryFirstSuccess | src/api.js:75-77 | if any allowed attempt succeeds, the result is a value from an attempt no later than it |
| Api.ProcessCall | src/api.js:165-176 | a string date is parsed (ms→s), a numeric date kept, anything else replaced by now; the call's own properties are spread unchanged (the index keys of a string or array call included); a `null` or `undefined` call throws `Cannot read properties of null`/`undefined` `(reading 'message_date')` |
| Api.StringCallSpreadsCharacters | src/api.js:165-176 | the call `"ab"` becomes `{0: "a", 1: "b"}` dated now |
| JsValues.SpreadFields | src/api.js:175 | `{...v}` copies an object's fields, an array's elements and a string's characters under their decimal indices (exactly the keys `"0"` to `"n-1"`), and nothing of `null`, `undefined`, booleans and numbers |
| JsValues.SpreadOfIndexed | src/api.js:175 | two indices of a spread array are two different keys, each holding its own element |
| Api.ProcessCalls | src/api.js:165-176 | succeeds iff no call is `null` or `undefined`, mapping each call in order; otherwise throws the TypeError of the first such call |
| Api.InsertDesc | src/api.js:188-190 | inserting into a newest-first list keeps it newest-first and adds exactly that call |
| Api.SortNewestFirst | src/api.js:188-190 | the result is ordered newest first and is a permutation of the input |
| Api.SortKeepsSorted | src/api.js:188-190 | an already newest-first list is returned unchanged |
| Api.SortIdempotent | src/api.js:188-190 | sorting twice is sorting once |
| Api.CallsArray | src/api.js:129-163 | the calls come from the array itself, else its `calls` array, else its `data` array; none of them is the format error |
| Api.FetchCallsAttempt | src/api.js:100-215 | a network rejection passes through; a non-ok status throws `createErrorMessage(status, "calls")`; an unparsable body throws the JSON error; a bad shape throws the format error; a `null` or `undefined` call throws its TypeError; a well-formed 2xx reply succeeds, and a success is the processed calls, newest first |
| Api.NumericDatePassesThrough | src/api.js:169-175 | a call whose date is already a number keeps that date |
| Api.FetchChatCallsAttempt | src/api.js:229-325 | a network rejection passes through; non-ok: "chat calls" message; an unparsable body throws the JSON error; a null body or a body without a `calls` array throws; a `null` or `undefined` call throws its TypeError; a 2xx body with a `calls` array of non-nullish calls succeeds, and a success is the processed calls newest first with the chat, pagination, stats and performance fields |
| Api.FetchInfoAttempt | src/api.js:335-361 | a network rejection and an unparsable body pass their error through; non-ok: "info" message; a body that is not a non-null object throws "Invalid data format: expected object"; otherwise the body itself |
| Api.ChatsArray | src/api.js:391-417 | the chats are the array itself, else its `data` array, else a format error |
| Api.FetchChatsAttempt | src/api.js:371-429 | a network rejection and an unparsable body pass their error through; non-ok: "chats" message; a bad shape throws; a 2xx body holding the chats array returns exactly that array |
| ErrorUtils.NotFoundText | src/utils/errorUtils.js:13-33 | the 404 text by context; in the "data" context "calls" beats "info" |
| ErrorUtils.CreateUserFriendlyErrorMessage | src/utils/errorUtils.js:2-52 | first match wins: "404", then "network error"/"fetch", "500", "403", "401"; a not-found text iff the message contains "404"; `"Error: " + message` iff no key matches; never empty |
| ErrorUtils.FixedTextsDiffer | src/utils/errorUtils.js:16-48 | the fixed texts differ from each other and from any `"Error: "` text |
| ErrorUtils.FriendlyNeverDefault | src/utils/errorUtils.js:11-49 | every branch overwrites the default, so no "Failed to load …" text is ever returned |
| ErrorUtils.DataContextPrefersCalls | src/utils/errorUtils.js:21-26 | a 404 naming both calls and info reads as the calls endpoint in the "data" context |
| ErrorUtils.RetriedFetchErrorsReadAsConnection | src/api.js:89-91 | an error rethrown by `withRetry` for a "fetching …" operation contains "fetch", so without "404" it is shown as a connection problem whatever its status |
| ErrorUtils.RetriedCallsNotFound | src/api.js:89-111 | a 404 from the calls endpoint, rethrown by `withRetry`, reads as "Calls endpoint not available" in the "data" context |
| Pagination.Between | src/components/Common/Pagination/Pagination.jsx:17 | exactly the integers from lo to hi |
| Pagination.BuildPageSet | src/components/Common/Pagination/Pagination.jsx:14-29 | the loops build exactly `Window`: all pages up to 7 pages; otherwise 1–4, the last two, and the in-range neighbours of the current page |
| Pagination.Ascending | src/components/Common/Pagination/Pagination.jsx:31 | the members in range, strictly increasing |
| Pagination.SortedPages | src/components/Common/Pagination/Pagination.jsx:31 | the set's pages within 1..totalPages, sorted, no repeats |
| Pagination.SortedIsUnique | src/components/Common/Pagination/Pagination.jsx:31 | two strictly increasing lists with the same members are equal, so the filter-then-sort result is determined |
| Pagination.SmallBarShowsAll | src/components/Common/Pagination/Pagination.jsx:16-31 | with at most 7 pages every page 1..totalPages is shown |
| Pagination.BuildItems | src/components/Common/Pagination/Pagination.jsx:34-62 | the loop builds exactly `ItemsOf` |
| Pagination.ItemsShowPages | src/components/Common/Pagination/Pagination.jsx:44-61 | the buttons show exactly the pages, in order |
| Pagination.ItemsGapCount | src/components/Common/Pagination/Pagination.jsx:36-42 | one ellipsis per page not following its predecessor |
| Pagination.ItemsActiveMarking | src/components/Common/Pagination/Pagination.jsx:44 | a button is marked active iff its page is the current page |
| Pagination.ItemsActiveCount | src/components/Common/Pagination/Pagination.jsx:44 | one active button if the current page is shown, none otherwise |
| Pagination.ItemsWellPlaced | src/components/Common/Pagination/Pagination.jsx:35-62 | no ellipsis first, last or twice in a row; each is followed by the button of its page |
| Pagination.GapMeansMissingPredecessor | src/components/Common/Pagination/Pagination.jsx:31-36 | an ellipsis before page p means p−1 is not in the set |
| Pagination.GapsAroundWindow | src/components/Common/Pagination/Pagination.jsx:18-36 | with more than 7 pages, ellipses can only precede the page before the current one or the second-to-last page |
| Pagination.LargeBarBounded | src/components/Common/Pagination/Pagination.jsx:18-31 | with more than 7 pages: at most 9 buttons, at most 2 ellipses, well placed |
| Pagination.LargeBarAtMostNine | src/components/Common/Pagination/Pagination.jsx:18-31 | with more than 7 pages at most 9 page buttons are shown |
| Pagination.WindowSize | src/components/Common/Pagination/Pagination.jsx:19-28 | the large-bar page set has at most 9 members |
| Pagination.PreviousClick | src/components/Common/Pagination/Pagination.jsx:70 | "Previous" moves to current−1 iff current > 1 |
| Pagination.NextClick | src/components/Common/Pagination/Pagination.jsx:87 | "Next" moves to current+1 iff current < totalPages |
| Pagination.ClickMatchesDisabled | src/components/Common/Pagination/Pagination.jsx:70-88 | for an in-range current page a click does something iff the button is enabled, and never leaves 1..totalPages |
| Pagination.Render | src/components/Common/Pagination/Pagination.jsx:12-62 | the rendered buttons are the sorted window, well placed, with exactly one active button when the current page is in range |
| RetryPolicy.CountAfterLoad | src/components/Info.jsx:42-57 | success resets the counter, a failed retry keeps it, any other failure adds one |
| RetryPolicy.TickDecision | src/components/Info.jsx:65-78 | auto-retry iff an error is shown and fewer than 3 retries counted; refresh iff no error; otherwise wait |
| RetryPolicy.AutoRetriesKeepCount | src/components/GroupPage.jsx:66-84 | a run of automatic retries never moves the counter unless one succeeds, which resets it |
| Info.Decompose | src/components/Info.jsx:8-11 | days·86400 + hours·3600 + minutes·60 + seconds is the input, with hours < 24 and minutes, seconds < 60 |
| Info.PartsAreSuffix | src/components/Info.jsx:13-19 | the parts shown are the units from the first non-zero one on, seconds always last |
| Info.FormatRunningTime | src/components/Info.jsx:7-22 | always ends with the two-digit seconds and "s"; under a minute it is only that |
| Info.SecondsPartLength | src/components/Info.jsx:19 | the seconds part is three characters |
| Info.PartsPresence | src/components/Info.jsx:14-19 | four parts iff at least a day, three or more iff at least an hour, two or more iff at least a minute |
| Info.UnitThresholds | src/components/Info.jsx:8-10 | which leading units are non-zero, in terms of the seconds |
| Info.OneHourOneMinuteOneSecond | src/components/Info.jsx:7-22 | 3661 seconds reads "01h:01m:01s" |
| Info.ZeroSeconds | src/components/Info.jsx:7-22 | 0 seconds reads "00s" |
| Info.InfoView.constructor | src/components/Info.jsx:25-28 | no info, no error, loading, counter 0 |
| Info.AfterInfoLoad | src/components/Info.jsx:30-61 | success stores the info and clears the error; failure keeps the info and shows the "info" error text; the counter follows `CountAfterLoad`; loading ends false; the counter invariant is kept |
| Info.InfoLoadOutcomes | src/components/Info.jsx:30-78 | after a success the next tick refreshes; a failed retry keeps the counter, a failed plain load adds one |
| Info.InfoView.LoadInfo | src/components/Info.jsx:30-61 | the new state is `AfterInfoLoad` of the old one |
| Info.InfoView.Tick | src/components/Info.jsx:65-78 | the tick follows `TickDecision`; a wait changes nothing; a retry or refresh leaves exactly the state `AfterInfoLoad` gives for that kind of load |
| Info.InfoView.HandleRetry | src/components/Info.jsx:84-88 | the state after the reload is `AfterInfoLoad` of the old state with the counter reset, so the counter ends at 0 or 1 |
| GroupList.GroupsDataOfArray | src/components/GroupList.jsx:36 | an array reply is used as it is |
| GroupList.GroupedKeys | src/components/GroupList.jsx:42-59 | the id map has a key iff some group with a non-null id stringifies to it |
| GroupList.Deduplicate | src/components/GroupList.jsx:42-61 | throws iff some group is null or undefined, with the first one's TypeError; otherwise keeps the first group of each id, collects the repeated ids and groups by id, skipping null ids |
| GroupList.KeptAreFirsts | src/components/GroupList.jsx:52-54 | every kept group is the first occurrence of its id |
| GroupList.KeptKeysDistinct | src/components/GroupList.jsx:52-54 | kept groups all have ids, and no two share an id key |
| GroupList.KeptCoversKeys | src/components/GroupList.jsx:52-54 | every group with an id has a kept group with the same key, at or before it: the first group with that key |
| GroupList.FirstIsKept | src/components/GroupList.jsx:52-54 | the first group with its key is among the kept groups |
| GroupList.RepeatedMeansShared | src/components/GroupList.jsx:55-57 | an id is reported as repeated iff another group shares its key |
| GroupList.GroupListView.constructor | src/components/GroupList.jsx:17-22 | no groups, no error, loading, counter 0, no duplicates |
| GroupList.GroupListView.Fail | src/components/GroupList.jsx:103-114 | shows the "groups" error text and moves the counter by `CountAfterLoad` |
| GroupList.FirstNullish | src/components/GroupList.jsx:42-43 | the first `null` or `undefined` group, the one whose `chat_id` read throws |
| GroupList.AfterLoad | src/components/GroupList.jsx:24-118 | with duplicates the deduplicated list and the flag; without them the data as received, no error, counter 0; a thrown fetch error or the TypeError of the first null group keeps the list and shows its "groups" text, moving the counter by `CountAfterLoad`; loading ends false; the list invariant is kept |
| GroupList.Failed | src/components/GroupList.jsx:103-117 | a failure shows a non-empty error, ends loading and keeps the list and the flag |
| GroupList.SuccessThenRefresh | src/components/GroupList.jsx:97-135 | after a successful load there is no error and the next tick is a plain refresh |
| GroupList.FailedRetryKeepsCount | src/components/GroupList.jsx:103-114 | a failed retry keeps the counter; a failed plain load adds one |
| GroupList.GroupListView.LoadGroups | src/components/GroupList.jsx:24-118 | the new state is `AfterLoad` of the old one |
| GroupList.GroupListView.Tick | src/components/GroupList.jsx:122-135 | the tick follows `TickDecision`; a wait changes nothing; a retry or refresh leaves exactly the state `AfterLoad` gives for that kind of load |
| GroupList.GroupListView.HandleRetry | src/components/GroupList.jsx:141-145 | the state after the reload is `AfterLoad` of the old state with the counter reset |
| GroupList.RowClickTarget | src/components/GroupList.jsx:148-156 | navigates iff the chat id is truthy, to exactly `"/group/" + String(id) + "/page"` |
| GroupList.RowPathsDistinct | src/components/GroupList.jsx:150-152 | two rows lead to the same page only if their ids print the same |
| CallList.BackoffDelay | src/components/CallList.jsx:160 | the delay lies in [1000, 10000] ms |
| CallList.BackoffMonotone | src/components/CallList.jsx:160 | the delay never shrinks as the counter grows |
| CallList.BackoffCapped | src/components/CallList.jsx:160 | 1, 2, 4, 8 seconds for counters 0–3, the 10-second cap from 4 on |
| CallList.TickDecision | src/components/CallList.jsx:181-201 | exactly one of refresh (no error, counter 0, not loading), backoff retry (error, counter < 3, neither retrying nor loading), stop (error, counter ≥ 3) or skip |
| CallList.CallListView.constructor | src/components/CallList.jsx:17-28 | nothing loaded, nothing pending, no timer |
| CallList.CallListView.ClearTimeoutRef | src/components/CallList.jsx:50-53 | the timer the ref names is disarmed and the ref emptied |
| CallList.CallListView.LoadData | src/components/CallList.jsx:30-79 | while loading nothing starts and only a retry's `isRetrying` is cleared; otherwise the old timer is cleared, loading starts with the error cleared, a fresh 30 s timeout is the only armed timer and the request is pending |
| CallList.CallListView.Settle | src/components/CallList.jsx:81-149 | success replaces calls and info, resets the counter and records the time; an abort leaves error and counter; a failure shows the "data" text and counts only non-retries; on every path loading and retrying end false, no timer is left and the controller is dropped |
| CallList.CallListView.LoadingTimeoutFires | src/components/CallList.jsx:70-79 | loading and retrying end false; the request itself stays pending |
| CallList.CallListView.HandleRetryWithDelay | src/components/CallList.jsx:153-174 | a no-op while retrying or loading; otherwise retrying starts and one retry timer with the backoff delay is armed, and nothing else changes |
| CallList.CallListView.RetryTimerFires | src/components/CallList.jsx:165-167 | the retry starts a load: loading, the old pending requests plus one flagged as a retry, the loading timeout armed, the error cleared; calls, info, counter, retrying flag and last success time stay |
| CallList.CallListView.Tick | src/components/CallList.jsx:180-201 | the tick follows `TickDecision`; a refresh starts a plain load and a backoff retry arms the retry timer, each keeping calls, info, counter and last success time; a stop or skip changes nothing |
| CallList.CallListView.HandleRetry | src/components/CallList.jsx:218-223 | counter and error are reset; a plain load starts unless one is under way, in which case the requests, controller and timers stay; calls, info, retrying flag and last success time stay |
| GroupPage.PresentValues | src/components/GroupPage.jsx:10-14 | the non-null metrics in order; empty iff all three are null |
| GroupPage.AveragePerformance | src/components/GroupPage.jsx:9-21 | 0 when no metric is present, otherwise the mean (average × count = sum) |
| GroupPage.AverageWithinRange | src/components/GroupPage.jsx:14-20 | the average lies between any lower and upper bound of the present metrics |
| GroupPage.SingleMetricAverage | src/components/GroupPage.jsx:16-20 | the average of one metric is that metric |
| GroupPage.ValidCalls | src/components/GroupPage.jsx:129-134 | the calls with at least one metric, no others, and no more than given |
| GroupPage.ValidIndices | src/components/GroupPage.jsx:129-134 | the filter keeps order and repeats: its entries are the calls at strictly increasing positions, and every valid position is among them |
| GroupPage.ValidCallsCount | src/components/GroupPage.jsx:331-340 | the "Number of Calls" shown, the length of the filter, is the number of valid positions |
| GroupPage.ReduceBest | src/components/GroupPage.jsx:142-147 | the reduction with strict `>` ends on the first index of a maximum |
| GroupPage.ReduceWorst | src/components/GroupPage.jsx:149-154 | the reduction with strict `<` ends on the first index of a minimum |
| GroupPage.SelectPerformers | src/components/GroupPage.jsx:123-157 | both null iff no call is valid; the best is the first valid call with the largest average, the worst the first with the smallest |
| GroupPage.PerformersAreValidCalls | src/components/GroupPage.jsx:129-154 | both performers are valid calls of the list and the worst average is at most the best |
| GroupPage.PerformersBoundAll | src/components/GroupPage.jsx:142-154 | every valid call's average lies between the worst's and the best's |
| GroupPage.PerformanceClass | src/components/GroupPage.jsx:115-120 | "neutral" for null, "positive" iff ≥ 0, "negative" iff < 0 |
| GroupPage.FormatPerformance | src/components/GroupPage.jsx:107-112 | "N/A" for null; otherwise the two-decimal text followed by "%", with "+" in front iff ≥ 0 |
| GroupPage.ClassMatchesSign | src/components/GroupPage.jsx:107-120 | a figure is styled positive iff it is printed with a plus sign, and neutral iff printed "N/A" |
| AccountProvider.Reduce | src/helper/AccountContext/AccountProvider.jsx:42-55 | LOADING sets only `loading`; SIGNED_IN merges the payload then forces `loading` false; SIGNED_OUT gives the initial state; ERROR sets `error` and `loading` false; any other action leaves the state |
| AccountProvider.AuthFieldsKept | src/helper/AccountContext/AccountProvider.jsx:21-55 | no sequence of dispatches loses one of the seven authentication fields |
| AccountProvider.SettledActions | src/helper/AccountContext/AccountProvider.jsx:47-54 | sign-in and error end not loading, whatever the payload |
| AccountProvider.SignUpActionsIgnored | src/helper/AccountContext/AccountProvider.jsx:47-54 | SIGNED_UP and CONFIRMED_SIGN_UP change nothing |
| AccountProvider.SignOutForgets | src/helper/AccountContext/AccountProvider.jsx:49-50 | the state after signing out depends on nothing before it |
| AccountProvider.ReduceData | src/helper/AccountContext/AccountProvider.jsx:57-63 | only SET_ADDRESSES changes anything: `address` becomes `payload.data`, and a null payload throws |
| AccountProvider.DataReducerOnlySetsAddresses | src/helper/AccountContext/AccountProvider.jsx:57-63 | any run of actions other than SET_ADDRESSES leaves the data state as it was |
| AccountProvider.Profile | src/helper/AccountContext/AccountProvider.jsx:84-92 | the user's profile picture when the user id and the picture are truthy, the default avatar otherwise |
| AccountProvider.SignedOutShowsDefault | src/helper/AccountContext/AccountProvider.jsx:49-92 | after signing out the default avatar is shown |
| AccountProvider.SignedInShowsProfile | src/helper/AccountContext/AccountProvider.jsx:47-92 | after a sign-in carrying a truthy user id, the user's own truthy picture is shown |

## Left out

- Node I/O in the webhook server is not modelled: the `http` server object, `spawn`, log-file writes, `listen`, and the signal and uncaught-error handlers. Process exits and launch errors are input events, and each handler runs atomically.
- The HMAC-SHA256 digest and `JSON.parse` are not computed; they are parameters.
- The clock and the process uptime are parameters.
- `/health` and `/status` carry their timestamp as a number, not as ISO text.
- Network fetches are not modelled. Each attempt's reply is an input. The `delay` timers of `withRetry` are recorded as a list of waits and are not awaited.
- `withRetry`'s `logErrorDetails` only logs, and is not modelled.
- The `retryCount` argument of the fetch functions is unused by the code, and is not modelled.
- Date parsing and `Date.now()` are parameters, so a NaN date from an unparsable string is not modelled.
- The comparator of `Array.prototype.sort` is modelled as an insertion sort by date that places each call after every call at least as new, the stable order `Array.prototype.sort` guarantees since ECMAScript 2019. Stability itself is not stated as a lemma.
- The `toISOString()` debug logging in the API and in `CallList.jsx` is not modelled. It can throw on invalid dates.
- `CallList.CallListView`: the interval callback and `loadData` read the values of `loading`, `error`, `retryCount` and `isRetrying` captured when the effect last ran. `loading` is not an effect dependency. The model reads the current state instead, so the stale-closure behaviour is not modelled.
- `CallList.CallListView`: `Promise.all`'s two fetches are one outcome per request. Which one rejects first is not modelled.
- `CallList.CallListView`: aborting the controller has no effect, because the fetches are not given its signal. The model tracks only whether a controller is held.
- `GroupPage.jsx`'s `loadData`, interval and `handleRetry` follow the same `RetryPolicy` as `Info.InfoView` and are not given a class of their own.
- `GroupPage.FormatPerformance`: `toFixed(2)` is a parameter, so the rounding of the printed value is not modelled.
- Float arithmetic in the averages is modelled as exact real arithmetic.
- `Info.FormatRunningTime`: it takes whole non-negative seconds. The text for negative or fractional input is not modelled.
- Chat ids are stringified by a parameter `String()`. Ids that name `Object.prototype` members are not modelled.
- `GroupList.GroupListView.LoadGroups`: `fetchChats` always resolves to an array, so `data.data || data` is applied to arrays only.
- The Amplify sign-in, sign-up and session calls, cookies, LogRocket, the Hub listener, the SWR fetch of the user attributes and the router in `AccountProvider.jsx` are not modelled.
- React rendering, hooks and their re-subscription are not modelled. Neither are the presentational components and `GroupOverview.jsx`.
- The payload-size guard counts UTF-16 code units, not bytes. The model counts characters.
