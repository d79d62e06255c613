# ProxyTool v3 in Dafny

A model of `proxytool3.py`, a one-shot administration script for an endpoint
sensor fleet. The script re-points every Windows sensor of a tenant at a new
proxy. It works in six steps, and the run stops at the first step that fails:

1. It refuses to run without an API client id and secret.
2. It takes a bearer token. A cached token file is reused while it is younger
   than a configured maximum. Otherwise the script exchanges its client
   credentials for a new token and overwrites the file.
3. It lists every Windows host with the scroll-pagination query. Each query
   asks for up to 5000 ids and passes the cursor from the previous response.
   The loop stops once the number of ids collected reaches the total that the
   latest response reports.
4. It opens one real-time-response batch session over all of those hosts,
   asking the server to queue commands for offline hosts.
5. For each of two registry stores it submits four `reg delete` commands, then
   a `reg set` of the proxy hostname, then a `reg set` of the proxy port.
6. The first command refused with a status other than 201 ends the run.

Every answer from the outside is an input of the model, and everything the
run sends out is part of its result. The answers are:

- the token endpoint's reply;
- the sequence of scroll pages;
- the batch-init reply;
- the status of each command submission.

The model records the token-file accesses, the bearer token, each page query,
the batch-init request and each submitted command.

Modules:

- `TokenCache` (`token_cache.dfy`): the credential check and the token cache.
- `HostScroll` (`host_scroll.dfy`): the pagination loop. Its completeness is
  proved against a server that cuts a collection into pages.
- `RtrBatch` (`rtr_batch.dfy`): the batch id, the command plan and the
  submission loops.
- `ProxyTool` (`proxy_tool.dfy`): one whole run.
- `Scenarios` (`scenarios.dfy`): client methods that walk through the typical
  runs using only the contracts: a fresh token, an expired token, a null
  token that leaves an empty cache behind, a whole run with a cached token,
  an error body in place of the first host page, a null cursor, 12000 hosts,
  all commands accepted, and the fifth command refused.
- `Wrappers` (`wrappers.dfy`): `Option`.

## Model

| member | source | states |
|---|---|---|
| ProxyTool.Run | proxytool3.py:31-204 | The run stops with MissingCredentials exactly when the client id or secret is empty, and then it has touched nothing. The token steps are given exactly. A fresh token is checked and read, with no exchange. A stale one is checked and exchanged, and then written when the reply grants a token, or truncated when the reply's token is not a string. The token file afterwards is the new token (0 seconds old) when one was granted, an empty file (0 seconds old) when the token was not a string, and otherwise unchanged. TokenExchangeFailed happens exactly when the token was stale and the reply granted none. Without a bearer there are no page queries, no batch and no commands. Page query k uses the cursor of response k-1. The run is still awaiting a page exactly when every supplied response is usable and none reaches its total, and then it has sent one query more than there are pages. ListingFailed happens exactly when a response before the stopping one is unreadable or carries a null cursor, and then no batch is opened. The batch is opened exactly when the listing completes, over the hosts collected up to the first response whose total is reached, with queue_offline set. NoBatch happens exactly when the batch id is missing or empty. Commands go out only after a batch id, in plan order. Done means all twelve were submitted and accepted; CommandRejected(s) means the last one submitted was the first refused, with status s. |
| TokenCache.AcquireToken | proxytool3.py:41-74 | The cached token is reused exactly when the file exists and its age is below the maximum; then the file is read and nothing is fetched. Otherwise the credentials are exchanged once. If the reply has a string access_token and an expires_in, the file is overwritten with the new token. If either field is missing, the run fails before the file is opened. If both are there but the token is not a string (JSON null, a number), opening the file for writing empties it and the write then fails, so the run fails and leaves an empty token 0 seconds old. The accesses come in order: check, then read, exchange, exchange-and-write or exchange-and-truncate. |
| TokenCache.TruncatedAge | proxytool3.py:43-45 | The age is the whole-second current time minus the fractional modification time, truncated toward zero. It is within one second of the real difference, on the side of zero, for files from the past and from the future alike. |
| TokenCache.FreshnessBoundary | proxytool3.py:42-57 | The test is strict: a token exactly max_duration seconds old is replaced, and an absent file is never fresh. |
| TokenCache.SubSecondAgeIsZero | proxytool3.py:43-45 | A file modified less than a second from the current whole second counts as 0 seconds old. |
| HostScroll.RequestFor | proxytool3.py:85-95 | Every query asks for 5000 ids with the Windows platform filter. The first query sends no cursor. Each later query sends the previous response's cursor, and only when that cursor is not empty. A later query can be built only after a readable response whose cursor is not null. |
| HostScroll.FetchAllHosts | proxytool3.py:85-109 | Query k is RequestFor(pages, k). On completion every response consumed was usable, the loop stopped at the first response whose total was reached, and the hosts are the ids of those pages, in order. It raises after n queries when the n-th response lacks offset, resources or total (lines 101-108), or when it falls short of its total with a null cursor, so the next URL cannot be built (line 93). It runs out of pages only when every supplied response is usable and none reaches its total, and then it has sent one query more than there are pages. |
| HostScroll.Queries | proxytool3.py:88-98 | The first n queries of the loop: query k is RequestFor(pages, k), and it can be sent only if the responses before it were readable and carried cursors that are not null. |
| HostScroll.TakePage | proxytool3.py:98-109 | One pass of the loop body for response i. An unreadable response raises. Otherwise its ids are appended. The loop then completes if the total is reached, raises if the cursor is null, and otherwise goes on with the ids of the first i + 1 pages. |
| HostScroll.AppendIds | proxytool3.py:103-104 | The inner loop appends a page's ids, in order, after those already collected. |
| HostScroll.ListingOutcomeUnique | proxytool3.py:88-109 | The responses decide how the listing ends. It completes or raises after one number of queries only, never both, and never when the responses would run out instead. |
| HostScroll.EarlierHostsKept | proxytool3.py:103-104 | Later pages only append: the ids collected after m responses are a prefix of those after n >= m, and the counts add up. |
| HostScroll.EmptyPageNeverStops | proxytool3.py:101-109 | The loop has no guard against progress stalling. A response with no ids and an unchanged total, arriving before the total is reached, does not end the loop. |
| HostScroll.ScrollOfServedPages | proxytool3.py:88-109 | Pagination completeness. When N ids are served in pages of a fixed size, each page reporting total N, the loop stops exactly at the last page. That page is number ceil(N / size), or 1 when N is 0. The ids collected are the whole collection, in order. |
| HostScroll.ServedPagesFlatten | proxytool3.py:103-104 | Appending the pages' ids one page after another rebuilds the served collection. |
| HostScroll.ServedPageCount | proxytool3.py:89 | The number of pages needed to serve N ids is the ceiling of N / size (one page when N is 0). |
| HostScroll.ServedTotals | proxytool3.py:101-108 | Every served page is readable and carries the server's cursor and the total N. |
| HostScroll.ServedPrefixShort | proxytool3.py:108 | Before the last served page the count is still below N, so the stopping test fails there. |
| HostScroll.TwelveThousandHosts | proxytool3.py:88-109 | A 12000-host tenant read 5000 at a time takes three queries (5000, 5000 and 2000 ids) and stops after the third with every id listed. |
| RtrBatch.BatchIdFrom | proxytool3.py:133-140 | The run goes on with a batch id exactly when the reply has a non-empty batch_id, and it uses that value unchanged. A missing id (the helper returns an empty tuple) and an empty id are both falsy and end the run (lines 169-173). |
| RtrBatch.StoreCommands | proxytool3.py:184-199 | For one store, each key in order gets a `reg delete <store> <key>` command. These are followed by `reg set <store> CsProxyHostname -ValueType=REG_SZ -Value=<hostname>`, then `reg set <store> CsProxyport -ValueType=REG_DWORD -Value=<port>`. |
| RtrBatch.CommandPlan | proxytool3.py:183-199 | The run's commands are the per-store commands, store after store, and there are stores × (keys + 2) of them. |
| RtrBatch.PlanAt | proxytool3.py:183-199 | Command j of store i sits at position i·(keys + 2) + j of the plan. So deletions precede the hostname, the hostname precedes the port, and each store precedes the next. |
| RtrBatch.PlanPrefix | proxytool3.py:183 | The commands of the first i stores are a prefix of the plan. |
| RtrBatch.ScriptPlan | proxytool3.py:178-199 | With the script's two stores and four keys, the plan is exactly the twelve listed commands, in order. |
| RtrBatch.TwoStorePlan | proxytool3.py:183-199 | For any two stores and the script's four keys, the plan is the twelve commands, store after store. |
| RtrBatch.StoreScript | proxytool3.py:184-199 | For one store and the script's keys, the commands are the deletions of DisableProxy, PAC, PN and PP, then the hostname, then the port. |
| RtrBatch.CommandNamesItsStore | proxytool3.py:185-199 | Every command line starts with its base command and then the store it edits. Deletions use `reg delete` and the two settings use `reg set`. |
| RtrBatch.SubmitStore | proxytool3.py:184-204 | One pass of the store loop. It submits a non-empty prefix of the store's commands after the earlier ones. Either all of them were accepted, or the last one submitted is the first refusal of the run. |
| RtrBatch.Dispatch | proxytool3.py:183-204 | Submissions are a prefix of the plan. Done means the whole plan was submitted and every status was 201. Aborted(s) means the last command submitted was the first refused, with status s, and nothing after it was sent. |
| RtrBatch.FirstRefusalUnique | proxytool3.py:186-204 | The first refused submission is unique, so the number of commands sent before the run stops depends only on the statuses. |
| RtrBatch.RefusalExcludesDone | proxytool3.py:186-204 | A refusal among the first n statuses rules out all n being accepted, so Done and a refusal cannot both describe one status sequence. |

## Left out

- HTTP, JSON and URL building are not modelled. The endpoints, the headers, the form body of the token exchange and the JSON body of the batch init are not modelled. Each reply is given already decoded: `TokenReply`, `Page`, `InitResponse`, and an integer status per submission.
- File system and clock: the token file is a value (`TokenFile`) carrying its age in whole seconds. `TruncatedAge` models how the age is computed from the two timestamps, and `Run` takes the age as given.
- Logging is not modelled, and neither is the expires_in value beyond the fact that reading it must succeed.
- The configuration module is a parameter (`Config`). Its cloud domain and token file name only name endpoints and files, so they are not modelled. The failure to import `requests` or the configuration module (lines 16-28) is not modelled.
- ProxyTool.Run: requires one status per planned command (twelve). The statuses play the part of the command endpoint's replies, so this sizes the input and does not limit the script.
- ProxyTool.Run: the pages are a finite input. When the loop would need one more page than supplied, the run ends with `AwaitingPage` instead of waiting for the server. The script itself would keep querying, with no guard against a server that never reaches its reported total (see `HostScroll.EmptyPageNeverStops`).
- RtrBatch.Dispatch: on a refusal, the error message on lines 189, 196 and 203 adds an integer to a string, and it reads `.text` from the last page's decoded dictionary. Either raises an exception instead of reaching `exit()`. The model records only that the run stops after the refused command, which both paths share.
- HostScroll.FetchAllHosts: a response whose fields have the wrong JSON type is not modelled. A `resources` that is a number, a boolean or null raises at line 103, and a `total` that int() cannot convert raises at line 108; both end the script as an unreadable response does. A `resources` that is a string or an object is iterated at line 103, so its characters or its keys are appended as host ids and the run goes on; this is not modelled. A cursor that is neither a string nor null raises only when line 93 builds the next query, so on the page that reaches its total nothing raises; the model's null cursor (`None`) behaves the same way, and such a cursor is not given a case of its own.
- Non-string batch_id values (numbers, `false`, lists) are not modelled. The reply's batch_id is either absent or a string.
- The run does not select hosts by host group. It always lists the whole tenant with the Windows platform filter, and the model does the same.
- With zero hosts the script still sends one page query, and then opens a batch over the empty list. The model does the same.
- There is no zero-progress abort in the pagination loop, and none is modelled.
- The per-request bearer header is recorded once, as `RunLog.bearer`. Every API call after the token block presents that token.
