/**
 * Clients of the model: the run's typical situations, with what the
 * contracts alone let a caller conclude about them.
 */
module Scenarios {
  import opened Wrappers
  import TokenCache
  import HostScroll
  import RtrBatch
  import ProxyTool

  /** A token cached 100 seconds ago, with 1799 allowed: reused as it is, nothing fetched or written. */
  method CachedTokenReused()
  {
    var reply := TokenCache.TokenReply(TokenCache.Text("new"), Some(1799));
    var acquired, file', accesses :=
      TokenCache.AcquireToken(TokenCache.Present("cached", 100), 1799, "client", "secret", reply);
    assert acquired == TokenCache.Reused("cached");
    assert file' == TokenCache.Present("cached", 100);
    assert TokenCache.Exchange("client", "secret") !in accesses;
  }

  /** A token cached 1800 seconds ago, with 1799 allowed: one exchange, and the file now holds the new token, zero seconds old. */
  method ExpiredTokenReplaced()
  {
    var reply := TokenCache.TokenReply(TokenCache.Text("new"), Some(1799));
    var acquired, file', accesses :=
      TokenCache.AcquireToken(TokenCache.Present("cached", 1800), 1799, "client", "secret", reply);
    assert acquired == TokenCache.Issued("new");
    assert file' == TokenCache.Present("new", 0);
    assert accesses == [TokenCache.CheckFile, TokenCache.Exchange("client", "secret"), TokenCache.WriteFile("new")];
  }

  /** A whole run with a fresh cached token: the credentials are never exchanged and every later call presents the cached token. */
  method RunWithCachedToken(responses: ProxyTool.Responses)
    requires |responses.statuses| >= 12
  {
    var config := ProxyTool.Config("a", "b", "proxy.example", "8080", 10);
    RtrBatch.ScriptPlan(config.proxyHostname, config.proxyPort);
    var outcome, log, file' := ProxyTool.Run(config, TokenCache.Present("tok", 3), responses);
    assert TokenCache.Exchange("a", "b") !in log.tokenSteps;
    assert log.bearer == Some("tok") && file' == TokenCache.Present("tok", 3);
    if outcome == ProxyTool.AwaitingPage {
      assert |log.pageRequests| == |responses.pages| + 1;
    }
  }

  /** A reply without expires_in stops the run before the file is written. */
  method ReplyWithoutLifetime()
  {
    var reply := TokenCache.TokenReply(TokenCache.Text("new"), None);
    var acquired, file', accesses := TokenCache.AcquireToken(TokenCache.Absent, 1799, "client", "secret", reply);
    assert acquired == TokenCache.ExchangeFailed && file' == TokenCache.Absent;
  }

  /**
   * A reply whose access_token is null: the run fails, but only after emptying
   * the file, so the next run within the lifetime presents an empty bearer.
   */
  method NullTokenLeavesEmptyCache()
  {
    var reply := TokenCache.TokenReply(TokenCache.NotText, Some(1799));
    var acquired, file', accesses := TokenCache.AcquireToken(TokenCache.Absent, 1799, "client", "secret", reply);
    assert acquired == TokenCache.ExchangeFailed && file' == TokenCache.Present("", 0);
    var next, file'', _ := TokenCache.AcquireToken(file', 1799, "client", "secret", reply);
    assert next == TokenCache.Reused("") && file'' == file';
  }

  /** 12000 hosts served 5000 at a time: three queries, and every host listed in order. */
  method TwelveThousandHostsListed(items: seq<string>)
    requires |items| == 12000
  {
    var pages := HostScroll.ServedPages(items, HostScroll.PageLimit, 12000, "cursor");
    HostScroll.TwelveThousandHosts(items, "cursor");
    var result, requests := HostScroll.FetchAllHosts(pages);
    assert HostScroll.Reached(pages, 3);
    assert |requests| == 3;
    assert pages[..3] == pages;
    assert result == HostScroll.Complete(items);
    assert requests[0].offset == None && requests[1].offset == Some("cursor");
  }

  /**
   * The first scroll response is an error body without the pagination fields:
   * the run stops after one query, with no batch and no command.
   */
  method ErrorBodyStopsListing(config: ProxyTool.Config, reply: TokenCache.TokenReply, init: RtrBatch.InitResponse, statuses: seq<int>)
    requires TokenCache.CredentialsConfigured(config.clientId, config.clientSecret)
    requires |statuses| >= 12
  {
    RtrBatch.ScriptPlan(config.proxyHostname, config.proxyPort);
    var responses := ProxyTool.Responses(reply, [HostScroll.Unreadable], init, statuses);
    var outcome, log, _ := ProxyTool.Run(config, TokenCache.Present("tok", 0), responses);
    if 0 < config.maxDuration {
      assert log.bearer == Some("tok");
      assert responses.pages[0].Unreadable?;
      assert log.batchInit.None? && log.submissions == [];
      assert outcome == ProxyTool.Aborted(ProxyTool.ListingFailed);
      assert |log.pageRequests| == 1 && log.batchInit.None? && log.submissions == [];
    }
  }

  /** A page that falls short of the total and carries a null cursor: the next query cannot be built, so the run stops after one query. */
  method NullCursorStopsListing(items: seq<string>)
    requires |items| < 5000
  {
    var pages := [HostScroll.Page(items, None, 5000), HostScroll.Page([], Some("c"), 5000)];
    var result, requests := HostScroll.FetchAllHosts(pages);
    assert pages[..1] == [pages[0]];
    HostScroll.FlattenSingle(pages[0]);
    assert HostScroll.Raises(pages, 1);
    HostScroll.ListingOutcomeUnique(pages, 1, 1);
    if result.Raised? {
      HostScroll.ListingOutcomeUnique(pages, 1, |requests|);
    }
    assert result == HostScroll.Raised && |requests| == 1;
  }

  /** Every command accepted: all twelve submitted, store by store, and the run is done. */
  method AllCommandsAccepted(hostname: string, port: string)
  {
    var statuses := seq(12, _ => 201);
    RtrBatch.ScriptPlan(hostname, port);
    var outcome, submitted :=
      RtrBatch.Dispatch(RtrBatch.RegistryStores, RtrBatch.KeysToDelete, hostname, port, statuses);
    assert outcome == RtrBatch.Done;
    assert |submitted| == 12;
    assert submitted[4] == RtrBatch.HostnameCommand(RtrBatch.RegistryStores[0], hostname);
  }

  /** The fifth command refused with 403: exactly five submitted, the last the hostname set in the first store. */
  method FifthCommandRefused(hostname: string, port: string)
  {
    var statuses := [201, 201, 201, 201, 403, 201, 201, 201, 201, 201, 201, 201];
    RtrBatch.ScriptPlan(hostname, port);
    var outcome, submitted :=
      RtrBatch.Dispatch(RtrBatch.RegistryStores, RtrBatch.KeysToDelete, hostname, port, statuses);
    assert !RtrBatch.AllAccepted(statuses, 12) by { assert statuses[4] != 201; }
    assert RtrBatch.FirstRefusal(statuses, 5, 403);
    RtrBatch.FirstRefusalUnique(statuses, |submitted|, outcome.status, 5, 403);
    assert |submitted| == 5 && outcome == RtrBatch.Aborted(403);
    var plan := RtrBatch.CommandPlan(RtrBatch.RegistryStores, RtrBatch.KeysToDelete, hostname, port);
    assert submitted[4] == plan[4];
    assert submitted[4] == RtrBatch.HostnameCommand(RtrBatch.RegistryStores[0], hostname);
  }
}
