/** The client's error classifier (`createUserFriendlyErrorMessage`): a
    prioritised table of substrings of an error message, read against the
    context the error arose in ("data", "groups", "info", "group data"). */
module ErrorUtils {
  import opened Common
  import Api

  const InfoUnavailable: string := "Info" + " endpoint not available. Please check if the API server is running."
  const ChatsUnavailable: string := "Chats" + " endpoint not available. Please check if the API server is running."
  const CallsUnavailable: string := "Calls" + " endpoint not available. Please check if the API server is running."
  const ApiUnavailable: string := "API" + " endpoints not available. Please check if the API server is running."
  const CannotConnect: string :=
    "Cannot" + " connect to the server. Please check your internet connection and ensure the API server is running."
  const ServerErrorText: string := "Server" + " error occurred. Please try again later."
  const AccessDenied: string := "Access" + " denied. You may not have permission to view this data."
  const AuthenticationRequired: string := "Authentication" + " required. Please log in again."
  const ErrorPrefix: string := "Error: "

  /** The `defaultMessages[context] || "Failed to load data"` value the
      classifier starts from; every branch below overwrites it. */
  function DefaultMessage(context: string): string {
    if context == "groups" then "Failed to load groups"
    else if context == "info" then "Failed to load info"
    else if context == "group data" then "Failed to load group data"
    else "Failed to load data"
  }

  /** The texts a message containing "404" can be mapped to. */
  predicate IsNotFoundText(r: string) {
    r == InfoUnavailable || r == ChatsUnavailable || r == CallsUnavailable || r == ApiUnavailable
  }

  /** The text for a "404" message, chosen by context; in the "data" context
      a mention of "calls" beats a mention of "info". */
  function NotFoundText(message: string, context: string): (r: string)
    ensures IsNotFoundText(r)
    ensures context == "info" ==> r == InfoUnavailable
    ensures context == "groups" ==> r == ChatsUnavailable
    ensures context == "group data" ==> r == CallsUnavailable
    ensures context == "data" && Contains(message, "calls") ==> r == CallsUnavailable
    ensures context == "data" && !Contains(message, "calls") && Contains(message, "info") ==> r == InfoUnavailable
    ensures context !in {"info", "groups", "group data"} && (context != "data" || !(Contains(message, "calls") || Contains(message, "info"))) ==>
      r == ApiUnavailable
  {
    if context == "info" then InfoUnavailable
    else if context == "groups" then ChatsUnavailable
    else if context == "data" && Contains(message, "calls") then CallsUnavailable
    else if context == "data" && Contains(message, "info") then InfoUnavailable
    else if context == "group data" then CallsUnavailable
    else ApiUnavailable
  }

  /** `createUserFriendlyErrorMessage(err, context)` with `err.message == message`.
      The first matching rule wins: "404", then "network error" or "fetch",
      then "500", "403", "401"; otherwise the message itself is shown. */
  function CreateUserFriendlyErrorMessage(message: string, context: string): (r: string)
    ensures Contains(message, "404") ==> IsNotFoundText(r) && r == NotFoundText(message, context)
    ensures !Contains(message, "404") && (Contains(message, "network error") || Contains(message, "fetch")) ==>
      r == CannotConnect
    ensures !Contains(message, "404") && !Contains(message, "network error") && !Contains(message, "fetch") ==>
      (Contains(message, "500") ==> r == ServerErrorText) &&
      (!Contains(message, "500") && Contains(message, "403") ==> r == AccessDenied) &&
      (!Contains(message, "500") && !Contains(message, "403") && Contains(message, "401") ==> r == AuthenticationRequired)
    ensures IsNotFoundText(r) <==> Contains(message, "404")
    ensures |r| > 0
    ensures r == ErrorPrefix + message <==>
      !Contains(message, "404") && !Contains(message, "network error") && !Contains(message, "fetch") &&
      !Contains(message, "500") && !Contains(message, "403") && !Contains(message, "401")
  {
    FixedTextsDiffer(message);
    if Contains(message, "404") then NotFoundText(message, context)
    else if Contains(message, "network error") || Contains(message, "fetch") then CannotConnect
    else if Contains(message, "500") then ServerErrorText
    else if Contains(message, "403") then AccessDenied
    else if Contains(message, "401") then AuthenticationRequired
    else ErrorPrefix + message
  }

  /** The fixed texts are pairwise told apart by their first characters, and
      none of them is `"Error: " + message`. */
  lemma FixedTextsDiffer(message: string)
    ensures CannotConnect != InfoUnavailable && CannotConnect != ChatsUnavailable
    ensures CannotConnect != CallsUnavailable && CannotConnect != ApiUnavailable
    ensures ServerErrorText[0] == 'S' && AccessDenied[..3] == "Acc" && AuthenticationRequired[..3] == "Aut"
    ensures ApiUnavailable[..3] == "API"
    ensures (ErrorPrefix + message)[0] == 'E'
    ensures !IsNotFoundText(ErrorPrefix + message)
    ensures ErrorPrefix + message !in {CannotConnect, ServerErrorText, AccessDenied, AuthenticationRequired}
  {
    assert CannotConnect[1] == 'a' && CallsUnavailable[1] == 'a' && ChatsUnavailable[1] == 'h';
    assert CannotConnect[2] == 'n' && CallsUnavailable[2] == 'l';
    assert InfoUnavailable[0] == 'I' && ApiUnavailable[0] == 'A' && CannotConnect[0] == 'C';
    assert AccessDenied[0] == 'A' && AuthenticationRequired[0] == 'A' && ServerErrorText[0] == 'S';
    assert AccessDenied[..3] == "Acc" && AuthenticationRequired[..3] == "Aut" && ApiUnavailable[..3] == "API";
    assert ChatsUnavailable[0] == 'C';
  }

  /** Every path overwrites the initial value: no "Failed to load ..." default
      is ever returned, whatever the context. */
  lemma FriendlyNeverDefault(message: string, context: string, other: string)
    ensures CreateUserFriendlyErrorMessage(message, context) != DefaultMessage(other)
  {
    var r := CreateUserFriendlyErrorMessage(message, context);
    var d := DefaultMessage(other);
    assert d[0] == 'F';
    FixedTextsDiffer(message);
    assert InfoUnavailable[0] == 'I' && ChatsUnavailable[0] == 'C' && CallsUnavailable[0] == 'C';
    assert ApiUnavailable[0] == 'A' && CannotConnect[0] == 'C';
    assert r[0] != 'F';
  }

  /** In the "data" context a 404 message naming both "calls" and "info" is
      reported as the calls endpoint being unavailable. */
  lemma DataContextPrefersCalls(message: string)
    requires Contains(message, "404") && Contains(message, "calls") && Contains(message, "info")
    ensures CreateUserFriendlyErrorMessage(message, "data") == CallsUnavailable
  {
  }

  /** An error rethrown by `withRetry` for an operation named "fetching ..."
      reads "Failed to fetching ..." and so contains "fetch": unless it
      also contains "404" it is reported as a connection problem, whatever
      the status behind it (a 500 included). */
  lemma RetriedFetchErrorsReadAsConnection(what: string, maxRetries: int, last: string, context: string)
    requires !Contains(Api.RetryFailureMessage("fetching " + what, maxRetries, last), "404")
    ensures CreateUserFriendlyErrorMessage(Api.RetryFailureMessage("fetching " + what, maxRetries, last), context) ==
      CannotConnect
  {
    var m := Api.RetryFailureMessage("fetching " + what, maxRetries, last);
    var rest := "ing " + what + " after " + IntToString(maxRetries) + " attempts: " + last;
    assert m == "Failed to " + "fetch" + rest;
    ContainsInfix("Failed to ", "fetch", rest);
  }

  /** A 404 from the calls endpoint, rethrown by `withRetry` after the last
      attempt, is reported in the "data" context as the calls endpoint being
      unavailable. */
  lemma RetriedCallsNotFound(maxRetries: int)
    ensures CreateUserFriendlyErrorMessage(
      Api.RetryFailureMessage("fetching calls", maxRetries, Api.CreateErrorMessage(404, Some("calls"))), "data") ==
      CallsUnavailable
  {
    var last := Api.CreateErrorMessage(404, Some("calls"));
    var head := "Failed to fetching calls after " + IntToString(maxRetries) + " attempts: ";
    var m := Api.RetryFailureMessage("fetching calls", maxRetries, last);
    assert m == head + last;
    Api.NotFoundMessageMentions(Some("calls"));
    assert Api.EndpointName(Some("calls")) == "calls";
    ContainsPrepend(head, last, "404");
    ContainsPrepend(head, last, "calls");
    assert Contains(m, "404") && Contains(m, "calls");
    assert NotFoundText(m, "data") == CallsUnavailable;
  }
}
