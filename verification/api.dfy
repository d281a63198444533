/** The client data helpers of `src/api.js`: HTTP-status error texts, the
    shared bounded retry loop, and the response-shape normalisation and
    newest-first ordering done by `fetchCalls`, `fetchChatCalls`, `fetchInfo`
    and `fetchChats`. The network is an input: each attempt's outcome is
    given, as are date parsing and the clock. */
module Api {
  import opened Common
  import opened JsValues

  // ---------------------------------------------------------------------
  // createErrorMessage

  /** `createErrorMessage(status, endpoint)`: six statuses have fixed texts,
      only the 404 and 403 texts name the endpoint, and the rest are sorted
      into client errors, server errors and unknown ones. A falsy endpoint
      reads "endpoint". */
  function CreateErrorMessage(status: int, endpoint: Option<string>): (r: string)
    ensures status == 404 ==> r == EndpointName(endpoint) + NotFoundTail
    ensures status == 500 ==> r == InternalErrorText
    ensures status == 403 ==> r == ForbiddenHead + EndpointName(endpoint) + "."
    ensures status == 401 ==> r == UnauthorizedText
    ensures status == 429 ==> r == TooManyRequestsText
    ensures status == 503 ==> r == UnavailableText
    ensures !HasFixedText(status) && 400 <= status < 500 ==>
      r == "Client error (" + IntToString(status) + "). The request was invalid."
    ensures !HasFixedText(status) && status >= 500 ==>
      r == "Server error (" + IntToString(status) + "). The server encountered an error."
    ensures status < 400 && !HasFixedText(status) ==> r == "HTTP " + IntToString(status) + ": Unknown error occurred."
  {
    if status == 404 then EndpointName(endpoint) + NotFoundTail
    else if status == 500 then InternalErrorText
    else if status == 403 then ForbiddenHead + EndpointName(endpoint) + "."
    else if status == 401 then UnauthorizedText
    else if status == 429 then TooManyRequestsText
    else if status == 503 then UnavailableText
    else if 400 <= status < 500 then "Client error (" + IntToString(status) + "). The request was invalid."
    else if status >= 500 then "Server error (" + IntToString(status) + "). The server encountered an error."
    else "HTTP " + IntToString(status) + ": Unknown error occurred."
  }

  const NotFoundTail: string := " not found (404)" + ". Please check if the API server is running and the endpoint exists."
  const InternalErrorText: string := "Server error (500). The API server encountered an internal error."
  const ForbiddenHead: string := "Access forbidden (403). You may not have permission to access this "
  const UnauthorizedText: string := "Unauthorized (401). Authentication may be required."
  const TooManyRequestsText: string := "Too many requests (429). Please wait a moment before trying again."
  const UnavailableText: string := "Service unavailable (503). The server is temporarily unavailable."

  /** The statuses with a text of their own. */
  predicate HasFixedText(status: int) {
    status == 404 || status == 500 || status == 403 || status == 401 || status == 429 || status == 503
  }

  /** `endpoint || "endpoint"`. */
  function EndpointName(endpoint: Option<string>): (name: string)
    ensures endpoint.Some? && endpoint.value != "" ==> name == endpoint.value
    ensures endpoint.None? || endpoint.value == "" ==> name == "endpoint"
  {
    if endpoint.Some? && endpoint.value != "" then endpoint.value else "endpoint"
  }

  /** Only the 404 and 403 texts depend on the endpoint name. */
  lemma ErrorMessageIgnoresEndpoint(status: int, e1: Option<string>, e2: Option<string>)
    requires status != 404 && status != 403
    ensures CreateErrorMessage(status, e1) == CreateErrorMessage(status, e2)
  {
  }

  /** The 404 text carries the status and, when given, the endpoint name. */
  lemma NotFoundMessageMentions(endpoint: Option<string>)
    ensures Contains(CreateErrorMessage(404, endpoint), "404")
    ensures Contains(CreateErrorMessage(404, endpoint), EndpointName(endpoint))
  {
    var name := EndpointName(endpoint);
    assert NotFoundTail[12..15] == " not found (404)"[12..15] == "404";
    assert OccursAt(NotFoundTail, "404", 12);
    ContainsPrepend(name, NotFoundTail, "404");
    assert OccursAt(name + NotFoundTail, name, 0);
  }

  // ---------------------------------------------------------------------
  // withRetry

  /** What one call of the operation `fn` did. */
  datatype Attempt<T> = Returned(value: T) | Threw(message: string)

  /** What `withRetry` did: returned a value, returned `undefined` (no
      attempt was allowed), or threw. */
  datatype RetryOutcome<T> = Value(value: T) | NoValue | Failed(message: string)

  /** `2 ** k`; it outgrows `k`. */
  function Pow2(k: nat): (p: nat)
    ensures p >= k + 1
  {
    if k == 0 then 1 else 2 * Pow2(k - 1)
  }

  /** The waits before the second, third, ... attempt: `initialDelayMs * 2^k`. */
  function Delays(initialDelayMs: int, n: nat): (d: seq<int>)
    ensures |d| == n
    ensures n > 0 ==> d[0] == initialDelayMs
    ensures forall k :: 0 <= k < n - 1 ==> d[k + 1] == 2 * d[k]
  {
    seq(n, k requires 0 <= k => initialDelayMs * Pow2(k))
  }

  ghost predicate FailedBefore<T>(attempt: nat -> Attempt<T>, n: nat) {
    forall j: nat :: j < n ==> attempt(j).Threw?
  }

  /** The message `withRetry` throws after the last failed attempt. */
  function RetryFailureMessage(operationName: string, maxRetries: int, last: string): string {
    "Failed to " + operationName + " after " + IntToString(maxRetries) + " attempts: " + last
  }

  /** `withRetry(operationName, fn, maxRetries, initialDelayMs)`. Attempt `k`
      of `fn` behaves as `attempt(k)`. It makes at most `maxRetries` calls and
      returns the first value; after failed attempt `k` it waits
      `initialDelayMs * 2^k`, except after the last allowed attempt, when it
      throws instead. With `maxRetries <= 0` it never calls `fn`. */
  method WithRetry<T>(operationName: string, attempt: nat -> Attempt<T>, maxRetries: int, initialDelayMs: int)
    returns (outcome: RetryOutcome<T>, calls: nat, waits: seq<int>)
    ensures outcome.NoValue? <==> maxRetries <= 0
    ensures outcome.NoValue? ==> calls == 0 && waits == []
    ensures outcome.Value? ==>
      0 < calls <= maxRetries && attempt(calls - 1) == Returned(outcome.value) &&
      FailedBefore(attempt, calls - 1) && waits == Delays(initialDelayMs, calls - 1)
    ensures outcome.Failed? ==>
      calls == maxRetries && FailedBefore(attempt, calls) &&
      outcome.message == RetryFailureMessage(operationName, maxRetries, attempt(calls - 1).message) &&
      waits == Delays(initialDelayMs, calls - 1)
  {
    var k: nat := 0;
    waits := [];
    calls := 0;
    while k < maxRetries
      invariant calls == k
      invariant maxRetries <= 0 ==> k == 0
      invariant maxRetries > 0 ==> k < maxRetries
      invariant FailedBefore(attempt, k)
      invariant waits == Delays(initialDelayMs, k)
    {
      var r := attempt(k);
      calls := calls + 1;
      if r.Returned? {
        return Value(r.value), calls, waits;
      }
      if k < maxRetries - 1 {
        waits := waits + [initialDelayMs * Pow2(k)];
        k := k + 1;
      } else {
        return Failed(RetryFailureMessage(operationName, maxRetries, r.message)), calls, waits;
      }
    }
    outcome := NoValue;
  }

  /** When some allowed attempt succeeds, `withRetry` returns the first
      success: never a failure, and never a later value. */
  lemma WithRetryFirstSuccess<T>(attempt: nat -> Attempt<T>, maxRetries: int, k: nat,
                                 outcome: RetryOutcome<T>, calls: nat)
    requires k < maxRetries && attempt(k).Returned?
    requires outcome.Value? ==> 0 < calls && attempt(calls - 1) == Returned(outcome.value) && FailedBefore(attempt, calls - 1)
    requires outcome.Failed? ==> calls == maxRetries && FailedBefore(attempt, calls)
    requires !outcome.NoValue?
    ensures outcome.Value? && calls - 1 <= k
  {
    assert outcome.Failed? ==> attempt(k).Threw?;
    assert outcome.Value? && calls - 1 > k ==> attempt(k).Threw?;
  }

  // ---------------------------------------------------------------------
  // Response shapes and the newest-first order

  /** One `fetch` as the page sees it: rejected (network error), or a status
      with a body that `res.json()` could or could not parse. */
  datatype FetchReply =
    | Rejected(message: string)
    | Received(status: int, json: Option<JsValue>, jsonError: string)

  predicate Ok(status: int) {
    200 <= status <= 299
  }

  /** A call after `message_date` normalisation: its own fields and the
      numeric date (seconds). As a JS object it is `{...call, message_date}`. */
  datatype DatedCall = DatedCall(fields: map<string, JsValue>, date: real) {
    function ToJs(): JsValue {
      Obj(fields["message_date" := Num(date)])
    }
  }

  /** The TypeError thrown when reading property `key` of `null` or
      `undefined`. */
  function NullishReadMessage(v: JsValue, key: string): string {
    "Cannot read properties of " + (if v.Null? then "null" else "undefined") + " (reading '" + key + "')"
  }

  /** The `callsArray.map(...)` step for one call: a string date is parsed
      (`new Date(s).getTime() / 1000`, given as `parseDate`), a number is kept,
      anything else becomes the current time `now`. A `null` or `undefined`
      entry throws when its `message_date` is read. */
  function ProcessCall(call: JsValue, parseDate: string -> real, now: real): (r: Attempt<DatedCall>)
    ensures IsNullish(call) <==> r.Threw?
    ensures IsNullish(call) ==> r == Threw(NullishReadMessage(call, "message_date"))
    ensures !IsNullish(call) && Prop(call, "message_date").Num? ==> r == Returned(DatedCall(SpreadFields(call), Prop(call, "message_date").n))
    ensures !IsNullish(call) && Prop(call, "message_date").Str? ==> r == Returned(DatedCall(SpreadFields(call), parseDate(Prop(call, "message_date").s)))
    ensures !IsNullish(call) && !Prop(call, "message_date").Num? && !Prop(call, "message_date").Str? ==>
      r == Returned(DatedCall(SpreadFields(call), now))
  {
    if IsNullish(call) then Threw(NullishReadMessage(call, "message_date"))
    else
      var md := Prop(call, "message_date");
      var date := match md
        case Str(s) => parseDate(s)
        case Num(n) => n
        case _ => now;
      Returned(DatedCall(SpreadFields(call), date))
  }

  /** A call that is a string is spread into one field per character, and,
      having no `message_date`, is dated `now`. */
  lemma StringCallSpreadsCharacters(parseDate: string -> real, now: real)
    ensures ProcessCall(Str("ab"), parseDate, now) == Returned(DatedCall(map["0" := Str("a"), "1" := Str("b")], now))
  {
    var m := SpreadFields(Str("ab"));
    assert NatToString(0) == "0" && NatToString(1) == "1";
    assert m["0"] == Str("a") && m["1"] == Str("b");
    assert m.Keys == {"0", "1"} by {
      forall k | k in m
        ensures k == "0" || k == "1"
      {
        var i :| 0 <= i < 2 && k == NatToString(i);
      }
    }
    assert m == map["0" := Str("a"), "1" := Str("b")];
  }

  /** The map over all calls; the first `null` or `undefined` entry throws. */
  function ProcessCalls(calls: seq<JsValue>, parseDate: string -> real, now: real): (r: Attempt<seq<DatedCall>>)
    ensures r.Returned? <==> forall i :: 0 <= i < |calls| ==> !IsNullish(calls[i])
    ensures r.Threw? ==> exists i :: (0 <= i < |calls| && IsNullish(calls[i]) &&
      (forall j :: 0 <= j < i ==> !IsNullish(calls[j])) && r.message == NullishReadMessage(calls[i], "message_date"))
    ensures r.Returned? ==>
      |r.value| == |calls| &&
      forall i :: 0 <= i < |calls| ==> ProcessCall(calls[i], parseDate, now) == Returned(r.value[i])
  {
    if calls == [] then Returned([])
    else match ProcessCall(calls[0], parseDate, now)
      case Threw(m) => Threw(m)
      case Returned(c) =>
        match ProcessCalls(calls[1..], parseDate, now)
        case Threw(m) =>
          assert forall i :: 1 <= i < |calls| ==> calls[i] == calls[1..][i - 1];
          FirstNullishShift(calls, m);
          Threw(m)
        case Returned(rest) =>
          assert forall i :: 1 <= i < |calls| ==> calls[i] == calls[1..][i - 1];
          Returned([c] + rest)
  }

  /** The first nullish call after a non-nullish head is the first nullish
      call of the whole list. */
  lemma FirstNullishShift(calls: seq<JsValue>, m: string)
    requires |calls| > 0 && !IsNullish(calls[0])
    requires exists i :: (0 <= i < |calls[1..]| && IsNullish(calls[1..][i]) &&
      (forall j :: 0 <= j < i ==> !IsNullish(calls[1..][j])) && m == NullishReadMessage(calls[1..][i], "message_date"))
    ensures exists i :: (0 <= i < |calls| && IsNullish(calls[i]) &&
      (forall j :: 0 <= j < i ==> !IsNullish(calls[j])) && m == NullishReadMessage(calls[i], "message_date"))
  {
    var i :| 0 <= i < |calls[1..]| && IsNullish(calls[1..][i]) &&
      (forall j :: 0 <= j < i ==> !IsNullish(calls[1..][j])) && m == NullishReadMessage(calls[1..][i], "message_date");
    assert calls[1..][i] == calls[i + 1];
    forall j | 0 <= j < i + 1
      ensures !IsNullish(calls[j])
    {
      if j > 0 {
        assert calls[1..][j - 1] == calls[j];
      }
    }
  }

  /** Non-increasing by date: newest first. */
  predicate Descending(s: seq<DatedCall>) {
    forall i, j :: 0 <= i < j < |s| ==> s[i].date >= s[j].date
  }

  /** Place `x` after every element at least as new (so equal dates keep
      their input order, as the stable `Array.prototype.sort` does). */
  function InsertDesc(sorted: seq<DatedCall>, x: DatedCall): (r: seq<DatedCall>)
    requires Descending(sorted)
    ensures Descending(r)
    ensures multiset(r) == multiset(sorted) + multiset{x}
  {
    if sorted == [] then [x]
    else
      var last := sorted[|sorted| - 1];
      var init := sorted[..|sorted| - 1];
      assert sorted == init + [last];
      if last.date >= x.date then sorted + [x]
      else
        var r' := InsertDesc(init, x);
        assert forall m :: 0 <= m < |init| ==> init[m].date >= last.date by {
          forall m | 0 <= m < |init|
            ensures init[m].date >= last.date
          {
            assert sorted[m] == init[m];
          }
        }
        AllAtLeast(r', init, x, last.date);
        r' + [last]
  }

  /** Every element of a rearrangement of `init` plus `x` is at least as new
      as `bound` when they all are. */
  lemma AllAtLeast(r: seq<DatedCall>, init: seq<DatedCall>, x: DatedCall, bound: real)
    requires multiset(r) == multiset(init) + multiset{x}
    requires forall m :: 0 <= m < |init| ==> init[m].date >= bound
    requires x.date >= bound
    ensures forall k :: 0 <= k < |r| ==> r[k].date >= bound
  {
    forall k | 0 <= k < |r|
      ensures r[k].date >= bound
    {
      assert r[k] in multiset(r);
      if r[k] != x {
        assert r[k] in multiset(init);
        var m :| 0 <= m < |init| && init[m] == r[k];
      }
    }
  }

  /** `[...processedCalls].sort((a, b) => b.message_date - a.message_date)`:
      a rearrangement of the calls, newest first. */
  function SortNewestFirst(s: seq<DatedCall>): (r: seq<DatedCall>)
    ensures Descending(r)
    ensures multiset(r) == multiset(s)
    ensures |r| == |s|
  {
    if s == [] then []
    else
      assert s == s[..|s| - 1] + [s[|s| - 1]];
      var r := InsertDesc(SortNewestFirst(s[..|s| - 1]), s[|s| - 1]);
      assert |r| == |multiset(r)| == |s|;
      r
  }

  /** Sorting an already newest-first list leaves it unchanged. */
  lemma {:induction false} SortKeepsSorted(s: seq<DatedCall>)
    requires Descending(s)
    ensures SortNewestFirst(s) == s
  {
    if s != [] {
      var init := s[..|s| - 1];
      var last := s[|s| - 1];
      assert Descending(init);
      SortKeepsSorted(init);
      assert s == init + [last];
      if init != [] {
        assert init[|init| - 1].date >= last.date;
        assert InsertDesc(init, last) == init + [last];
      }
      assert SortNewestFirst(s) == InsertDesc(init, last);
    }
  }

  /** Sorting is idempotent. */
  lemma SortIdempotent(s: seq<DatedCall>)
    ensures SortNewestFirst(SortNewestFirst(s)) == SortNewestFirst(s)
  {
    SortKeepsSorted(SortNewestFirst(s));
  }

  /** Where `fetchCalls` finds the list: a top-level array, else an array in
      `calls`, else an array in `data`; anything else is rejected. */
  function CallsArray(data: JsValue): (r: Option<seq<JsValue>>)
    ensures data.Arr? ==> r == Some(data.items)
    ensures !data.Arr? && Prop(data, "calls").Arr? ==> r == Some(Prop(data, "calls").items)
    ensures !data.Arr? && !Prop(data, "calls").Arr? && Prop(data, "data").Arr? ==> r == Some(Prop(data, "data").items)
    ensures r.None? <==> !data.Arr? && !Prop(data, "calls").Arr? && !Prop(data, "data").Arr?
  {
    if data.Arr? then Some(data.items)
    else if Truthy(data) && Prop(data, "calls").Arr? then Some(Prop(data, "calls").items)
    else if Truthy(data) && Prop(data, "data").Arr? then Some(Prop(data, "data").items)
    else None
  }

  const InvalidCallsFormat: string := "Invalid data format: expected array or object with calls array"

  /** One attempt of `fetchCalls`: HTTP errors become their status text, a
      body of the wrong shape is rejected, and the calls come back with
      normalised dates, newest first. */
  function FetchCallsAttempt(reply: FetchReply, parseDate: string -> real, now: real): (r: Attempt<seq<DatedCall>>)
    ensures reply.Rejected? ==> r == Threw(reply.message)
    ensures reply.Received? && !Ok(reply.status) ==> r == Threw(CreateErrorMessage(reply.status, Some("calls")))
    ensures reply.Received? && Ok(reply.status) && reply.json.None? ==> r == Threw(reply.jsonError)
    ensures reply.Received? && Ok(reply.status) && reply.json.Some? && CallsArray(reply.json.value).None? ==>
      r == Threw(InvalidCallsFormat)
    ensures reply.Received? && Ok(reply.status) && reply.json.Some? && CallsArray(reply.json.value).Some? ==>
      var processed := ProcessCalls(CallsArray(reply.json.value).value, parseDate, now);
      (processed.Threw? ==> r == Threw(processed.message)) && (processed.Returned? ==> r.Returned?)
    ensures r.Returned? ==>
      reply.Received? && Ok(reply.status) && reply.json.Some? && CallsArray(reply.json.value).Some? &&
      var processed := ProcessCalls(CallsArray(reply.json.value).value, parseDate, now);
      processed.Returned? && Descending(r.value) && multiset(r.value) == multiset(processed.value)
  {
    match reply
    case Rejected(m) => Threw(m)
    case Received(status, json, jsonError) =>
      if !Ok(status) then Threw(CreateErrorMessage(status, Some("calls")))
      else if json.None? then Threw(jsonError)
      else match CallsArray(json.value)
        case None => Threw(InvalidCallsFormat)
        case Some(calls) =>
          match ProcessCalls(calls, parseDate, now)
          case Threw(m) => Threw(m)
          case Returned(processed) => Returned(SortNewestFirst(processed))
  }

  /** A numeric `message_date` survives `fetchCalls` unchanged: the call
      appears in the result with exactly that date. */
  lemma NumericDatePassesThrough(reply: FetchReply, parseDate: string -> real, now: real, i: nat)
    requires reply.Received? && Ok(reply.status) && reply.json.Some? && CallsArray(reply.json.value).Some?
    requires FetchCallsAttempt(reply, parseDate, now).Returned?
    requires i < |CallsArray(reply.json.value).value|
    requires Prop(CallsArray(reply.json.value).value[i], "message_date").Num?
    ensures var call := CallsArray(reply.json.value).value[i];
      DatedCall(SpreadFields(call), Prop(call, "message_date").n) in FetchCallsAttempt(reply, parseDate, now).value
  {
    var calls := CallsArray(reply.json.value).value;
    var processed := ProcessCalls(calls, parseDate, now);
    var r := FetchCallsAttempt(reply, parseDate, now).value;
    assert processed.value[i] in multiset(processed.value);
    assert processed.value[i] in multiset(r);
  }

  /** The object `fetchChatCalls` returns. */
  datatype ChatCalls = ChatCalls(calls: seq<DatedCall>, chat: JsValue, pagination: JsValue, stats: JsValue, performance: JsValue)

  const InvalidChatCallsFormat: string := "Invalid data format: expected object with calls array for chat"
  /** The TypeError of `Object.keys(null)`, reached in a log line before the shape check. */
  const KeysOfNullMessage: string := "Cannot convert undefined or null to object"

  /** One attempt of `fetchChatCalls`: only an object with a `calls` array is
      accepted; the other four fields are passed through. */
  function FetchChatCallsAttempt(reply: FetchReply, parseDate: string -> real, now: real): (r: Attempt<ChatCalls>)
    ensures reply.Rejected? ==> r == Threw(reply.message)
    ensures reply.Received? && Ok(reply.status) && reply.json.None? ==> r == Threw(reply.jsonError)
    ensures reply.Received? && Ok(reply.status) && reply.json.Some? && Prop(reply.json.value, "calls").Arr? ==>
      var processed := ProcessCalls(Prop(reply.json.value, "calls").items, parseDate, now);
      (processed.Threw? ==> r == Threw(processed.message)) && (processed.Returned? ==> r.Returned?)
    ensures reply.Received? && !Ok(reply.status) ==> r == Threw(CreateErrorMessage(reply.status, Some("chat calls")))
    ensures reply.Received? && Ok(reply.status) && reply.json.Some? && IsNullish(reply.json.value) ==> r == Threw(KeysOfNullMessage)
    ensures reply.Received? && Ok(reply.status) && reply.json.Some? && !IsNullish(reply.json.value) && !Prop(reply.json.value, "calls").Arr? ==>
      r == Threw(InvalidChatCallsFormat)
    ensures r.Returned? ==>
      reply.Received? && Ok(reply.status) && reply.json.Some? && Prop(reply.json.value, "calls").Arr? &&
      var data := reply.json.value;
      var processed := ProcessCalls(Prop(data, "calls").items, parseDate, now);
      processed.Returned? && Descending(r.value.calls) && multiset(r.value.calls) == multiset(processed.value) &&
      r.value.chat == Prop(data, "chat") && r.value.pagination == Prop(data, "pagination") &&
      r.value.stats == Prop(data, "stats") && r.value.performance == Prop(data, "performance")
  {
    match reply
    case Rejected(m) => Threw(m)
    case Received(status, json, jsonError) =>
      if !Ok(status) then Threw(CreateErrorMessage(status, Some("chat calls")))
      else if json.None? then Threw(jsonError)
      else
        var data := json.value;
        if IsNullish(data) then Threw(KeysOfNullMessage)
        else if !Truthy(data) || !Prop(data, "calls").Arr? then Threw(InvalidChatCallsFormat)
        else match ProcessCalls(Prop(data, "calls").items, parseDate, now)
          case Threw(m) => Threw(m)
          case Returned(processed) =>
            Returned(ChatCalls(SortNewestFirst(processed), Prop(data, "chat"), Prop(data, "pagination"),
                               Prop(data, "stats"), Prop(data, "performance")))
  }

  const InvalidInfoFormat: string := "Invalid data format: expected object"

  /** One attempt of `fetchInfo`: `!data || typeof data !== "object"` is
      rejected, so exactly objects and arrays come back, unchanged. */
  function FetchInfoAttempt(reply: FetchReply): (r: Attempt<JsValue>)
    ensures reply.Rejected? ==> r == Threw(reply.message)
    ensures reply.Received? && Ok(reply.status) && reply.json.None? ==> r == Threw(reply.jsonError)
    ensures reply.Received? && !Ok(reply.status) ==> r == Threw(CreateErrorMessage(reply.status, Some("info")))
    ensures reply.Received? && Ok(reply.status) && reply.json.Some? ==>
      (r.Returned? <==> reply.json.value.Obj? || reply.json.value.Arr?)
    ensures reply.Received? && Ok(reply.status) && reply.json.Some? && !(reply.json.value.Obj? || reply.json.value.Arr?) ==>
      r == Threw(InvalidInfoFormat)
    ensures r.Returned? ==> reply.Received? && reply.json == Some(r.value)
  {
    match reply
    case Rejected(m) => Threw(m)
    case Received(status, json, jsonError) =>
      if !Ok(status) then Threw(CreateErrorMessage(status, Some("info")))
      else if json.None? then Threw(jsonError)
      else if !Truthy(json.value) || !(json.value.Obj? || json.value.Arr? || json.value.Null?) then Threw(InvalidInfoFormat)
      else Returned(json.value)
  }

  const InvalidChatsFormat: string := "Invalid data format: expected array or object with data array for chats"

  /** Where `fetchChats` finds the list: a top-level array, else an array in
      `data`. */
  function ChatsArray(data: JsValue): (r: Option<seq<JsValue>>)
    ensures data.Arr? ==> r == Some(data.items)
    ensures !data.Arr? && Prop(data, "data").Arr? ==> r == Some(Prop(data, "data").items)
    ensures r.None? <==> !data.Arr? && !Prop(data, "data").Arr?
  {
    if data.Arr? then Some(data.items)
    else if Truthy(data) && Prop(data, "data").Arr? then Some(Prop(data, "data").items)
    else None
  }

  /** One attempt of `fetchChats`: the list, unchanged and unsorted. */
  function FetchChatsAttempt(reply: FetchReply): (r: Attempt<seq<JsValue>>)
    ensures reply.Received? && !Ok(reply.status) ==> r == Threw(CreateErrorMessage(reply.status, Some("chats")))
    ensures reply.Rejected? ==> r == Threw(reply.message)
    ensures reply.Received? && Ok(reply.status) && reply.json.None? ==> r == Threw(reply.jsonError)
    ensures reply.Received? && Ok(reply.status) && reply.json.Some? && ChatsArray(reply.json.value).None? ==>
      r == Threw(InvalidChatsFormat)
    ensures reply.Received? && Ok(reply.status) && reply.json.Some? && ChatsArray(reply.json.value).Some? ==>
      r == Returned(ChatsArray(reply.json.value).value)
    ensures r.Returned? ==> reply.Received? && Ok(reply.status) && reply.json.Some? && ChatsArray(reply.json.value) == Some(r.value)
  {
    match reply
    case Rejected(m) => Threw(m)
    case Received(status, json, jsonError) =>
      if !Ok(status) then Threw(CreateErrorMessage(status, Some("chats")))
      else if json.None? then Threw(jsonError)
      else match ChatsArray(json.value)
        case None => Threw(InvalidChatsFormat)
        case Some(chats) => Returned(chats)
  }
}
