/**
 * One run of proxytool3.py, end to end: the credential pre-check, the token,
 * the host listing, the batch session and the command submissions.
 *
 * Every answer from the outside is an input (`Responses`), and everything the
 * run does to the outside is recorded in the `RunLog` it returns, step by
 * step in the order the run takes them: the token-file accesses and the
 * credential exchange, the bearer token every later API call presents, each
 * page query, the batch-init request and each command submission.
 */
module ProxyTool {
  import opened Wrappers
  import TokenCache
  import HostScroll
  import RtrBatch

  /** The run's configuration (the proxy target, the API client and the token lifetime). */
  datatype Config = Config(
    clientId: string,
    clientSecret: string,
    proxyHostname: string,
    proxyPort: string,
    maxDuration: int)

  /** What the outside world answers, in the order the run asks. */
  datatype Responses = Responses(
    token: TokenCache.TokenReply,
    pages: seq<HostScroll.Page>,
    batchInit: RtrBatch.InitResponse,
    statuses: seq<int>)

  /** The batch-init request: the hosts and the flag asking the server to queue commands for offline hosts. */
  datatype BatchInitRequest = BatchInitRequest(hosts: seq<string>, queueOffline: bool)

  /**
   * What a run did to the outside, in the order it did it. Every API call
   * after the token block presents `bearer`, and every submission names
   * `batchId`.
   */
  datatype RunLog = RunLog(
    tokenSteps: seq<TokenCache.TokenAccess>,
    bearer: Option<string>,
    pageRequests: seq<HostScroll.PageRequest>,
    batchInit: Option<BatchInitRequest>,
    batchId: Option<string>,
    submissions: seq<RtrBatch.Command>)

  const NothingDone := RunLog([], None, [], None, None, [])

  datatype Reason =
    | MissingCredentials
    | TokenExchangeFailed
    | ListingFailed
    | NoBatch
    | CommandRejected(status: int)

  /**
   * How the run ended: every command accepted, stopped for a reason, or still
   * paging when the supplied pages ran out (the real run would keep asking).
   */
  datatype Outcome = Done | Aborted(reason: Reason) | AwaitingPage

  /** Every command of the run. */
  function Plan(config: Config): seq<RtrBatch.Command>
  {
    RtrBatch.CommandPlan(RtrBatch.RegistryStores, RtrBatch.KeysToDelete, config.proxyHostname, config.proxyPort)
  }

  /** The token the run holds after the token block, if it holds one. */
  function BearerAfter(config: Config, file: TokenCache.TokenFile, reply: TokenCache.TokenReply): Option<string>
  {
    if !TokenCache.CredentialsConfigured(config.clientId, config.clientSecret) then None
    else if TokenCache.Fresh(file, config.maxDuration) then Some(file.contents)
    else if TokenCache.Granted(reply) then Some(reply.accessToken.text)
    else None
  }

  /**
   * The whole run. The stores, the keys and the page size are the fixed ones
   * of the script; the responses decide how far it gets.
   */
  method Run(config: Config, file: TokenCache.TokenFile, responses: Responses)
    returns (outcome: Outcome, log: RunLog, file': TokenCache.TokenFile)
    requires |responses.statuses| >= |Plan(config)|
    // the credential pre-check comes before any file access or request
    ensures outcome == Aborted(MissingCredentials)
      <==> !TokenCache.CredentialsConfigured(config.clientId, config.clientSecret)
    ensures outcome == Aborted(MissingCredentials) ==> log == NothingDone && file' == file
    // the token block
    ensures TokenCache.CredentialsConfigured(config.clientId, config.clientSecret) ==>
      log.tokenSteps
        == if TokenCache.Fresh(file, config.maxDuration) then [TokenCache.CheckFile, TokenCache.ReadFile]
           else if TokenCache.Granted(responses.token) then
             [TokenCache.CheckFile, TokenCache.Exchange(config.clientId, config.clientSecret),
              TokenCache.WriteFile(responses.token.accessToken.text)]
           else if TokenCache.Malformed(responses.token) then
             [TokenCache.CheckFile, TokenCache.Exchange(config.clientId, config.clientSecret), TokenCache.TruncateFile]
           else [TokenCache.CheckFile, TokenCache.Exchange(config.clientId, config.clientSecret)]
    ensures file'
      == if !TokenCache.CredentialsConfigured(config.clientId, config.clientSecret)
              || TokenCache.Fresh(file, config.maxDuration) then file
         else if TokenCache.Granted(responses.token) then TokenCache.Present(responses.token.accessToken.text, 0)
         else if TokenCache.Malformed(responses.token) then TokenCache.Present("", 0)
         else file
    ensures outcome == Aborted(TokenExchangeFailed)
      <==> TokenCache.CredentialsConfigured(config.clientId, config.clientSecret)
           && !TokenCache.Fresh(file, config.maxDuration) && !TokenCache.Granted(responses.token)
    ensures log.bearer == BearerAfter(config, file, responses.token)
    // the page queries: none without a token, each with the cursor of the previous response
    ensures log.bearer.None? ==> log.pageRequests == [] && log.batchInit.None? && log.submissions == []
    ensures log.bearer.Some? ==> 1 <= |log.pageRequests| <= |responses.pages| + 1
    ensures forall k :: 0 <= k < |log.pageRequests| ==>
      HostScroll.Sendable(responses.pages, k) && log.pageRequests[k] == HostScroll.RequestFor(responses.pages, k)
    ensures outcome == AwaitingPage <==> log.bearer.Some? && HostScroll.Exhausted(responses.pages)
    ensures outcome == AwaitingPage ==>
      |log.pageRequests| == |responses.pages| + 1 && log.batchInit.None? && log.submissions == []
    ensures outcome == Aborted(ListingFailed)
      <==> log.bearer.Some? && HostScroll.Raises(responses.pages, |log.pageRequests|)
    ensures outcome == Aborted(ListingFailed) ==> log.batchInit.None? && log.submissions == []
    // the batch: opened over every host listed, exactly when the listing completes
    ensures log.batchInit.Some? <==> log.bearer.Some? && HostScroll.Completes(responses.pages, |log.pageRequests|)
    ensures log.batchInit.Some? ==>
      log.batchInit.value == BatchInitRequest(HostScroll.Flatten(responses.pages[..|log.pageRequests|]), true)
    ensures log.batchId.Some? ==> log.batchInit.Some? && log.batchId == RtrBatch.BatchIdFrom(responses.batchInit)
    ensures outcome == Aborted(NoBatch)
      <==> log.batchInit.Some? && RtrBatch.BatchIdFrom(responses.batchInit).None?
    // the commands: only with a batch id, in plan order, up to the first refusal
    ensures log.submissions != [] ==> log.batchId.Some?
    ensures log.submissions <= Plan(config)
    ensures outcome == Done ==>
      log.submissions == Plan(config) && RtrBatch.AllAccepted(responses.statuses, |Plan(config)|)
    ensures outcome.Aborted? && outcome.reason.CommandRejected? ==>
      RtrBatch.FirstRefusal(responses.statuses, |log.submissions|, outcome.reason.status)
  {
    log := NothingDone;
    file' := file;
    if !TokenCache.CredentialsConfigured(config.clientId, config.clientSecret) {
      outcome := Aborted(MissingCredentials);
      return;
    }

    var acquired, accesses;
    acquired, file', accesses :=
      TokenCache.AcquireToken(file, config.maxDuration, config.clientId, config.clientSecret, responses.token);
    log := log.(tokenSteps := accesses);
    if acquired.ExchangeFailed? {
      outcome := Aborted(TokenExchangeFailed);
      return;
    }
    log := log.(bearer := Some(acquired.token));

    var scroll, requests := HostScroll.FetchAllHosts(responses.pages);
    log := log.(pageRequests := requests);
    if scroll.OutOfPages? {
      outcome := AwaitingPage;
      return;
    }
    if scroll.Raised? {
      HostScroll.ListingOutcomeUnique(responses.pages, |requests|, |requests|);
      outcome := Aborted(ListingFailed);
      return;
    }
    HostScroll.ListingOutcomeUnique(responses.pages, |requests|, |requests|);

    log := log.(batchInit := Some(BatchInitRequest(scroll.hosts, true)));
    var batchId := RtrBatch.BatchIdFrom(responses.batchInit);
    if batchId.None? {
      outcome := Aborted(NoBatch);
      return;
    }
    log := log.(batchId := batchId);

    var dispatched, submitted := RtrBatch.Dispatch(
      RtrBatch.RegistryStores, RtrBatch.KeysToDelete, config.proxyHostname, config.proxyPort, responses.statuses);
    log := log.(submissions := submitted);
    outcome := if dispatched.Done? then Done else Aborted(CommandRejected(dispatched.status));
  }
}
