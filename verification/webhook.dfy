/** The GitHub webhook deployment listener: configuration, signature check,
    the single-flight deployment gate with its child-process callbacks, the
    request-body reader with its size guard, the decision order applied once
    the body is complete, and the path router.

    Foreign calls are parameters: the hex HMAC-SHA256 digest (`crypto`),
    `JSON.parse`, and the clock. Each event handler runs atomically, as on
    Node's single-threaded event loop. */
module Webhook {
  import opened Common
  import opened JsValues

  /** The secret used when `GITHUB_WEBHOOK_SECRET` is unset or empty. */
  const PlaceholderSecret: string := "your-webhook-secret-here"
  /** Largest accepted request body, in characters (1 MiB). */
  const MaxPayloadSize: nat := 1024 * 1024
  /** `CONFIG.port`'s default. Binding the port is I/O and is not part of
      this model; the constant only records the configured value. */
  const DefaultPort: nat := 3001
  const MasterRef: string := "refs/heads/master"

  /** `process.env.X || default`: an unset or empty variable falls back. */
  function ConfiguredSecret(env: Option<string>): (secret: string)
    ensures secret != ""
    ensures env.Some? && env.value != "" ==> secret == env.value
    ensures env.None? || env.value == "" ==> secret == PlaceholderSecret
  {
    if env.Some? && env.value != "" then env.value else PlaceholderSecret
  }

  /** Hex digest of HMAC-SHA256 keyed with the first argument over the second. */
  type HmacHex = (string, string) -> string

  /** `JSON.parse`: `None` when it throws a SyntaxError. */
  type JsonParse = string -> Option<JsValue>

  /** True when the signature check is switched off (development mode). */
  predicate SignatureCheckDisabled(secret: string) {
    secret == "" || secret == PlaceholderSecret
  }

  /** `validateSignature`: with the secret unset or left at the placeholder
      every request passes; otherwise the header must equal `sha256=` followed
      by the hex digest of the raw body. A missing header never matches. */
  function ValidateSignature(hmac: HmacHex, secret: string, payload: string, signature: Option<string>): (ok: bool)
    ensures SignatureCheckDisabled(secret) ==> ok
    ensures !SignatureCheckDisabled(secret) ==>
      (ok <==> signature == Some("sha256=" + hmac(secret, payload)))
  {
    if SignatureCheckDisabled(secret) then true
    else signature == Some("sha256=" + hmac(secret, payload))
  }

  /** With a real secret, exactly one header value is accepted for a body. */
  lemma SignatureUnique(hmac: HmacHex, secret: string, payload: string, s1: string, s2: string)
    requires !SignatureCheckDisabled(secret)
    requires ValidateSignature(hmac, secret, payload, Some(s1))
    requires ValidateSignature(hmac, secret, payload, Some(s2))
    ensures s1 == s2
  {
  }

  /** Because the configured secret falls back to the placeholder, the
      empty-secret test never decides anything: the check is off exactly when
      the secret is the placeholder. */
  lemma ConfiguredSecretNeverEmpty(env: Option<string>)
    ensures SignatureCheckDisabled(ConfiguredSecret(env)) <==> ConfiguredSecret(env) == PlaceholderSecret
  {
  }

  // ---------------------------------------------------------------------
  // Deployment state and the deploy child process

  /** `deploymentState.lastError`: a non-zero exit (code `None` is `null`,
      the process ended by a signal) or a failure to start. */
  datatype DeployError =
    | ExitError(code: Option<int>, stdout: string, stderr: string)
    | LaunchError(error: string)

  /** The value `executeDeploy` returns or resolves its promise with. */
  datatype DeployResult =
    | AlreadyInProgress
    | Completed
    | ExitFailed(message: string, code: Option<int>, stdout: string, stderr: string)
    | LaunchFailed(message: string, error: string)
  {
    predicate Success() { Completed? }

    function Message(): string {
      match this
      case AlreadyInProgress => "Deployment already in progress"
      case Completed => "Deployment completed successfully"
      case ExitFailed(m, _, _, _) => m
      case LaunchFailed(m, _) => m
    }
  }

  /** `${code}` for an exit code that may be `null`. */
  function CodeText(code: Option<int>): string {
    if code.Some? then IntToString(code.value) else "null"
  }

  function ExitFailureMessage(count: nat, code: Option<int>): string {
    "Deployment #" + NatToString(count) + " failed with code " + CodeText(code)
  }

  function LaunchFailureMessage(error: string): string {
    "Failed to start deployment: " + error
  }

  /** In-order concatenation of received chunks. */
  function Concat(chunks: seq<string>): string {
    if chunks == [] then "" else Concat(chunks[..|chunks| - 1]) + chunks[|chunks| - 1]
  }

  /** Appending a chunk extends the concatenation by exactly that chunk. */
  lemma ConcatAppend(chunks: seq<string>, c: string)
    ensures Concat(chunks + [c]) == Concat(chunks) + c
  {
    assert (chunks + [c])[..|chunks|] == chunks;
  }

  /** What the first `k` chunks spell is a prefix of what all of them spell:
      captured output only ever grows at its end. */
  lemma {:induction false} ConcatPrefix(chunks: seq<string>, k: nat)
    requires k <= |chunks|
    ensures IsPrefix(Concat(chunks[..k]), Concat(chunks))
  {
    if k < |chunks| {
      var last := |chunks| - 1;
      assert chunks[..last][..k] == chunks[..k];
      ConcatPrefix(chunks[..last], k);
      assert chunks[..|chunks|][..last] == chunks[..last];
    } else {
      assert chunks[..k] == chunks;
    }
  }

  /** The module-level `deploymentState` record. */
  class Gateway {
    /** Time of the last completed attempt, `null` until one completes. */
    var lastDeployment: Option<int>
    var isDeploying: bool
    var lastError: Option<DeployError>
    var deploymentCount: nat

    constructor ()
      ensures lastDeployment == None && !isDeploying && lastError == None && deploymentCount == 0
    {
      lastDeployment := None;
      isDeploying := false;
      lastError := None;
      deploymentCount := 0;
    }

    /** `executeDeploy`: the single-flight gate. While a deployment runs the
        trigger is skipped and nothing changes; otherwise the gate closes, the
        counter goes up by one and the deploy script is spawned. */
    method ExecuteDeploy() returns (launch: Launch)
      modifies this
      ensures old(isDeploying) ==> launch == Skipped(AlreadyInProgress)
      ensures old(isDeploying) ==> unchanged(this)
      ensures !old(isDeploying) ==> launch.Spawned? && fresh(launch.process)
      ensures !old(isDeploying) ==>
        isDeploying && deploymentCount == old(deploymentCount) + 1 &&
        lastError == old(lastError) && lastDeployment == old(lastDeployment)
      ensures !old(isDeploying) ==>
        Snapshot() == StateSnapshot(old(lastDeployment), true, old(lastError), old(deploymentCount) + 1)
      ensures launch.Spawned? ==>
        launch.process.Valid() && launch.process.gateway == this &&
        launch.process.stdout == "" && launch.process.stderr == "" && launch.process.result == None
    {
      if isDeploying {
        return Skipped(AlreadyInProgress);
      }
      isDeploying := true;
      deploymentCount := deploymentCount + 1;
      var p := new DeployProcess(this);
      launch := Spawned(p);
    }

    /** `handleStatus`: the state as `/status` reports it. */
    function Snapshot(): (s: StateSnapshot)
      reads this
      ensures s.lastDeployment == lastDeployment && s.isDeploying == isDeploying
      ensures s.lastError == lastError && s.deploymentCount == deploymentCount
    {
      StateSnapshot(lastDeployment, isDeploying, lastError, deploymentCount)
    }
  }

  datatype StateSnapshot = StateSnapshot(
    lastDeployment: Option<int>, isDeploying: bool, lastError: Option<DeployError>, deploymentCount: nat)

  /** What `executeDeploy` hands back: an immediate skip or a running process. */
  datatype Launch = Skipped(result: DeployResult) | Spawned(process: DeployProcess)

  /** The spawned `bash deploy.sh` child with its captured streams and the
      promise that `executeDeploy` returned. */
  class DeployProcess {
    const gateway: Gateway
    var stdout: string
    var stderr: string
    ghost var stdoutChunks: seq<string>
    ghost var stderrChunks: seq<string>
    /** The value the promise resolved with; only the first `resolve` counts. */
    var result: Option<DeployResult>

    ghost predicate Valid()
      reads this
    {
      stdout == Concat(stdoutChunks) && stderr == Concat(stderrChunks)
    }

    constructor (g: Gateway)
      ensures Valid() && gateway == g && stdoutChunks == [] && stderrChunks == []
      ensures stdout == "" && stderr == "" && result == None
    {
      gateway := g;
      stdout, stderr := "", "";
      stdoutChunks, stderrChunks := [], [];
      result := None;
    }

    method Resolve(r: DeployResult)
      modifies this`result
      ensures result == if old(result).None? then Some(r) else old(result)
    {
      if result.None? {
        result := Some(r);
      }
    }

    /** A `data` event on the child's standard output. */
    method OnStdout(chunk: string)
      requires Valid()
      modifies this`stdout, this`stdoutChunks
      ensures Valid()
      ensures stdoutChunks == old(stdoutChunks) + [chunk] && stdout == old(stdout) + chunk
    {
      ConcatAppend(stdoutChunks, chunk);
      stdout := stdout + chunk;
      stdoutChunks := stdoutChunks + [chunk];
    }

    /** A `data` event on the child's standard error. */
    method OnStderr(chunk: string)
      requires Valid()
      modifies this`stderr, this`stderrChunks
      ensures Valid()
      ensures stderrChunks == old(stderrChunks) + [chunk] && stderr == old(stderr) + chunk
    {
      ConcatAppend(stderrChunks, chunk);
      stderr := stderr + chunk;
      stderrChunks := stderrChunks + [chunk];
    }

    /** The child's `close` event: the gate reopens and the completion time is
        recorded; exit code 0 clears the last error, any other code (or `null`)
        records it with the captured streams. */
    method OnClose(code: Option<int>, now: int)
      modifies gateway, this`result
      ensures !gateway.isDeploying && gateway.lastDeployment == Some(now)
      ensures gateway.deploymentCount == old(gateway.deploymentCount)
      ensures code == Some(0) ==> gateway.lastError == None
      ensures code != Some(0) ==> gateway.lastError == Some(ExitError(code, stdout, stderr))
      ensures old(result).Some? ==> result == old(result)
      ensures old(result).None? ==> result == Some(
        if code == Some(0) then Completed
        else ExitFailed(ExitFailureMessage(gateway.deploymentCount, code), code, stdout, stderr))
    {
      gateway.isDeploying := false;
      gateway.lastDeployment := Some(now);
      if code == Some(0) {
        gateway.lastError := None;
        Resolve(Completed);
      } else {
        var msg := ExitFailureMessage(gateway.deploymentCount, code);
        gateway.lastError := Some(ExitError(code, stdout, stderr));
        Resolve(ExitFailed(msg, code, stdout, stderr));
      }
    }

    /** The child's `error` event (the script could not be started): the gate
        reopens and the launch error is recorded; the completion time is NOT
        updated. */
    method OnError(message: string)
      modifies gateway, this`result
      ensures !gateway.isDeploying
      ensures gateway.lastError == Some(LaunchError(message))
      ensures gateway.lastDeployment == old(gateway.lastDeployment)
      ensures gateway.deploymentCount == old(gateway.deploymentCount)
      ensures old(result).Some? ==> result == old(result)
      ensures old(result).None? ==> result == Some(LaunchFailed(LaunchFailureMessage(message), message))
    {
      gateway.isDeploying := false;
      gateway.lastError := Some(LaunchError(message));
      Resolve(LaunchFailed(LaunchFailureMessage(message), message));
    }
  }

  /** Two triggers while one deployment is running: the second is skipped and
      the counter moves only once. */
  method TwoTriggers(g: Gateway) returns (first: Launch, second: Launch)
    requires !g.isDeploying
    modifies g
    ensures first.Spawned? && second == Skipped(AlreadyInProgress)
    ensures g.deploymentCount == old(g.deploymentCount) + 1 && g.isDeploying
  {
    first := g.ExecuteDeploy();
    second := g.ExecuteDeploy();
  }

  // ---------------------------------------------------------------------
  // HTTP responses and routing

  datatype Body =
    | ErrorBody(error: string)
    | MessageBody(message: string)
    | ProcessedBody(message: string, deployment: DeployResult)
    | StatusBody(status: string, snapshot: StateSnapshot, uptime: real, timestamp: int)  // `snapshot` is sent under the key `deployment`
    | HealthBody(status: string, timestamp: int)
    | EmptyBody

  datatype Response = Response(status: int, body: Body)

  /** The response to a webhook that triggered `executeDeploy`, once its
      result is known (the HTTP status is 200 whatever the outcome). */
  function DeployResponse(r: DeployResult): (resp: Response)
    ensures resp.status == 200 && resp.body.ProcessedBody? && resp.body.deployment == r
  {
    Response(200, ProcessedBody("Webhook processed successfully", r))
  }

  /** The decision taken once the whole body has arrived. */
  datatype Decision = InvalidPayload | InvalidSignature | NoAction | Deploy

  /** The log line's `payload.head_commit?.id?.substring(0, 8)` throws when
      the commit id is present but not a string. */
  predicate CommitIdReadable(payload: JsValue) {
    var id := Prop(Prop(payload, "head_commit"), "id");
    IsNullish(id) || id.Str?
  }

  /** The `end` handler of `handleWebhook`, in the code's order: parse the
      JSON (400 on failure), check the signature (401), then deploy only for a
      `push` event whose `ref` is exactly `refs/heads/master`. Reading `ref`
      of a `null` payload, or an unreadable commit id on the deploy path,
      throws inside the same `try` and so also gives 400. */
  function Decide(parse: JsonParse, hmac: HmacHex, secret: string, body: string,
                  event: Option<string>, signature: Option<string>): (d: Decision)
    ensures parse(body).None? ==> d == InvalidPayload
    ensures d == InvalidSignature <==> parse(body).Some? && !ValidateSignature(hmac, secret, body, signature)
    ensures d == Deploy <==>
      parse(body).Some? && ValidateSignature(hmac, secret, body, signature) &&
      event == Some("push") && Get(parse(body).value, "ref") == Some(Str(MasterRef)) &&
      CommitIdReadable(parse(body).value)
    ensures d == NoAction ==> parse(body).Some? && ValidateSignature(hmac, secret, body, signature)
    ensures event != Some("push") && parse(body).Some? && ValidateSignature(hmac, secret, body, signature) ==>
      d == NoAction
    ensures event == Some("push") && parse(body).Some? && ValidateSignature(hmac, secret, body, signature) ==>
      (IsNullish(parse(body).value) ==> d == InvalidPayload) &&
      (!IsNullish(parse(body).value) && Prop(parse(body).value, "ref") != Str(MasterRef) ==> d == NoAction)
    ensures event == Some("push") && parse(body).Some? && ValidateSignature(hmac, secret, body, signature) ==>
      (Get(parse(body).value, "ref") == Some(Str(MasterRef)) && !CommitIdReadable(parse(body).value) ==> d == InvalidPayload)
  {
    match parse(body)
    case None => InvalidPayload
    case Some(payload) =>
      if !ValidateSignature(hmac, secret, body, signature) then InvalidSignature
      else if event != Some("push") then NoAction
      else match Get(payload, "ref")
        case None => InvalidPayload
        case Some(ref) =>
          if ref != Str(MasterRef) then NoAction
          else if !CommitIdReadable(payload) then InvalidPayload
          else Deploy
  }

  /** The immediate response for a decision other than `Deploy`. */
  function DecisionResponse(d: Decision): (resp: Response)
    requires d != Deploy
    ensures d == InvalidPayload ==> resp == Response(400, ErrorBody("Invalid webhook payload"))
    ensures d == InvalidSignature ==> resp == Response(401, ErrorBody("Invalid signature"))
    ensures d == NoAction ==> resp == Response(200, MessageBody("Webhook received but no action taken"))
  {
    match d
    case InvalidPayload => Response(400, ErrorBody("Invalid webhook payload"))
    case InvalidSignature => Response(401, ErrorBody("Invalid signature"))
    case NoAction => Response(200, MessageBody("Webhook received but no action taken"))
  }

  /** A body that is not JSON is answered 400 whatever its signature. */
  lemma InvalidJsonBeatsSignature(parse: JsonParse, hmac: HmacHex, secret: string, body: string,
                                  event: Option<string>, s1: Option<string>, s2: Option<string>)
    requires parse(body).None?
    ensures Decide(parse, hmac, secret, body, event, s1) == Decide(parse, hmac, secret, body, event, s2) == InvalidPayload
  {
  }

  /** In development mode (placeholder secret) the signature header is never
      looked at: any two headers lead to the same decision. */
  lemma DevelopmentModeIgnoresSignature(parse: JsonParse, hmac: HmacHex, body: string,
                                        event: Option<string>, s1: Option<string>, s2: Option<string>)
    ensures Decide(parse, hmac, PlaceholderSecret, body, event, s1) == Decide(parse, hmac, PlaceholderSecret, body, event, s2)
  {
  }

  /** A `push` to any branch other than master is acknowledged without deploying. */
  lemma OtherBranchNoAction(parse: JsonParse, hmac: HmacHex, secret: string, body: string,
                            signature: Option<string>)
    requires parse(body).Some? && !IsNullish(parse(body).value)
    requires Prop(parse(body).value, "ref") != Str(MasterRef)
    requires ValidateSignature(hmac, secret, body, signature)
    ensures Decide(parse, hmac, secret, body, Some("push"), signature) == NoAction
    ensures DecisionResponse(Decide(parse, hmac, secret, body, Some("push"), signature)) ==
      Response(200, MessageBody("Webhook received but no action taken"))
  {
  }

  /** The body of one POST to `/webhook`, read chunk by chunk. */
  class WebhookRequest {
    const event: Option<string>
    const signature: Option<string>
    var body: string
    var destroyed: bool
    ghost var chunks: seq<string>

    /** The body is the chunks in order, and the request has been destroyed
        exactly when the body outgrew the limit. */
    ghost predicate Valid()
      reads this
    {
      body == Concat(chunks) && destroyed == (|body| > MaxPayloadSize)
    }

    constructor (event: Option<string>, signature: Option<string>)
      ensures Valid() && body == "" && chunks == [] && !destroyed
      ensures this.event == event && this.signature == signature
    {
      this.event := event;
      this.signature := signature;
      body := "";
      destroyed := false;
      chunks := [];
    }

    /** A `data` event: append the chunk, destroy the request once the body
        is longer than the limit. */
    method OnData(chunk: string)
      requires Valid()
      modifies this`body, this`destroyed, this`chunks
      ensures Valid()
      ensures chunks == old(chunks) + [chunk] && body == old(body) + chunk
      ensures old(destroyed) ==> destroyed
    {
      ConcatAppend(chunks, chunk);
      body := body + chunk;
      chunks := chunks + [chunk];
      if |body| > MaxPayloadSize {
        destroyed := true;
      }
    }

    /** The `end` event. A destroyed request never reaches it and gets no
        response (`None`). Otherwise the decision is taken; a deploy decision
        calls `executeDeploy`, which either answers at once (skipped) or hands
        back the process whose result the response waits for. */
    method OnEnd(g: Gateway, parse: JsonParse, hmac: HmacHex, secret: string) returns (outcome: EndOutcome)
      requires Valid()
      modifies g
      ensures destroyed ==> outcome == Dropped && unchanged(g)
      ensures !destroyed && Decide(parse, hmac, secret, body, event, signature) != Deploy ==>
        outcome == Answered(DecisionResponse(Decide(parse, hmac, secret, body, event, signature))) &&
        unchanged(g)
      ensures !destroyed && Decide(parse, hmac, secret, body, event, signature) == Deploy && old(g.isDeploying) ==>
        outcome == Answered(DeployResponse(AlreadyInProgress)) && unchanged(g)
      ensures !destroyed && Decide(parse, hmac, secret, body, event, signature) == Deploy && !old(g.isDeploying) ==>
        outcome.Waiting? && fresh(outcome.process) && outcome.process.gateway == g &&
        outcome.process.Valid() && outcome.process.result == None &&
        g.isDeploying && g.deploymentCount == old(g.deploymentCount) + 1 &&
        g.lastError == old(g.lastError) && g.lastDeployment == old(g.lastDeployment)
    {
      if destroyed {
        return Dropped;
      }
      var d := Decide(parse, hmac, secret, body, event, signature);
      if d != Deploy {
        return Answered(DecisionResponse(d));
      }
      var launch := g.ExecuteDeploy();
      match launch
      case Skipped(r) =>
        outcome := Answered(DeployResponse(r));
      case Spawned(p) =>
        outcome := Waiting(p);
    }
  }

  datatype EndOutcome =
    | Dropped
    | Answered(response: Response)
    | Waiting(process: DeployProcess)

  /** Where the `createServer` callback sends a request. */
  datatype Route = Preflight | WebhookPath | StatusPath | HealthPath | NotFound

  /** OPTIONS is answered before the path is looked at; three paths are
      known; everything else is not found. */
  function RouteOf(httpMethod: string, path: string): (r: Route)
    ensures httpMethod == "OPTIONS" <==> r == Preflight
    ensures httpMethod != "OPTIONS" ==>
      (r == WebhookPath <==> path == "/webhook") &&
      (r == StatusPath <==> path == "/status") &&
      (r == HealthPath <==> path == "/health") &&
      (r == NotFound <==> path !in {"/webhook", "/status", "/health"})
  {
    if httpMethod == "OPTIONS" then Preflight
    else if path == "/webhook" then WebhookPath
    else if path == "/status" then StatusPath
    else if path == "/health" then HealthPath
    else NotFound
  }

  /** What the server does with the head of a request: answer at once, or
      start reading a webhook body. */
  datatype Dispatch = Respond(response: Response) | ReadBody

  /** The `createServer` callback and the method check at the top of
      `handleWebhook`: a non-POST to `/webhook` gets 405 before any body is
      read; only a POST to `/webhook` reads a body. `/status` reports the
      current state, with the uptime and clock passed in. */
  function DispatchRequest(httpMethod: string, path: string, state: StateSnapshot, uptime: real, now: int): (d: Dispatch)
    ensures d == ReadBody <==> httpMethod == "POST" && path == "/webhook"
    ensures httpMethod == "OPTIONS" ==> d == Respond(Response(200, EmptyBody))
    ensures httpMethod !in {"OPTIONS", "POST"} && path == "/webhook" ==>
      d == Respond(Response(405, ErrorBody("Method not allowed")))
    ensures httpMethod != "OPTIONS" && path !in {"/webhook", "/status", "/health"} ==>
      d == Respond(Response(404, ErrorBody("Not found")))
    ensures httpMethod != "OPTIONS" && path == "/status" ==>
      d == Respond(Response(200, StatusBody("running", state, uptime, now)))
    ensures httpMethod != "OPTIONS" && path == "/health" ==>
      d == Respond(Response(200, HealthBody("healthy", now)))
  {
    match RouteOf(httpMethod, path)
    case Preflight => Respond(Response(200, EmptyBody))
    case WebhookPath =>
      if httpMethod != "POST" then Respond(Response(405, ErrorBody("Method not allowed"))) else ReadBody
    case StatusPath => Respond(Response(200, StatusBody("running", state, uptime, now)))
    case HealthPath => Respond(Response(200, HealthBody("healthy", now)))
    case NotFound => Respond(Response(404, ErrorBody("Not found")))
  }
}
