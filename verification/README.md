# Verified model of the MCPxy proxy

MCPxy forwards JSON-RPC between clients and many upstream servers, and can be
reconfigured while it runs. This project models its hand-written state machines and
stream parsers and proves what they keep over every input, run or interleaving.

| module | models |
|---|---|
| `UpstreamManagers` | live transports and their hot reload with compensation |
| `RuntimeConfigs`, `ApplyInterleavings` | one apply over all copies of the configuration; any number of concurrent applies |
| `ConfigStores`, `ConfigTrees`, `ConfigSecrets` | the versioned store and its caches; JSON values; placeholders and the check before an apply |
| `JsonText`, `DigitLimits`, `JsonDump` | `raw_decode`, the integers it refuses, and `json.dumps`, character by character |
| `JsonGrammar` | the grammar of RFC 8259, given by how values are written, and that the decoder reads exactly that |
| `MessageStream`, `BodyGrammar` | the request body parser, and exactly the bodies it takes |
| `TrafficStream`, `StreamGrammar` | the server-sent event stream, from the encoder to the browser, and what every stream means to the client |
| `TokenBuckets`, `PolicyEngines`, `RateLimiting`, `DeniedRequests`, `VainPayments` | token buckets, policies, runs of requests, reloads and evictions, and what denied requests cost |
| `ProxyBridges` | concurrent forwarding, cut at every await |
| `OAuthFlows`, `OAuthRefreshing`, `OAuthRetries`, `OAuthGrants`, `OAuthAuthorizing`, `OAuthOutcomes` | the OAuth client, cut at every await; its refresh lock, callers with a 401, which refresh token is kept, the code flow, and what the end of a call tells |
| `StdioTransports`, `StdioHistories`, `StdioStops` | replies over a child process, cut at every await; what became of each request; crashes, respawns and stops |
| `TelemetryPipelines`, `TrafficRecorders`, `TrafficMetrics` | bounded queues, fan-out, and aggregates |
| `Registrations`, `FileDropWatchers` | adding and removing upstreams; reconciling with a drop directory |
| `Prelude` | options, splitting, and sums over maps |

Run `dafny verify dfyconfig.toml` to check everything.

## How it is modelled

- A class stands for each object that the code updates in place. Each of its methods is
  proved equal to a function on the object's state, in a run the one named by an action of
  `Step`, and the theorems about whole runs are lemmas about those functions. Where the code
  awaits, a method is the part between two awaits, and a run is any sequence of such parts
  that are enabled. The table below names such a method only where it has a loop or where
  its contract says more than that.
- Anything outside decides freely: whether a start, stop, statement or write succeeds, what
  an authorization server answers, in which order a dictionary, set or directory is gone
  through, and when a coroutine is resumed or cancelled. Waiters for a lock get it in any
  order.
- Time, tokens, rates and latencies are reals, and clocks do not run backwards. Python's
  `round` is rounding half to even.
- A parsed message or payload is represented by its text; a telemetry event by its place
  among the offers; a reply by its id. A ciphertext remembers the key it was made with.
- Fields declared `ghost`, and `since`, `got`, `delivered`, `lost`, `gone`, `issued`,
  `redeemed`, `latest`, `ids` and `met`, record history for the statements and take no part in what
  the code does.

## Where the code does less than it says

Each of these is proved with its exact condition and, where that is not plain, a run or an
input that meets it, by the members named.

- When saving an apply fails, the live upstreams already are the new ones and stay so,
  although the comment at src/mcpxy_proxy/runtime.py:175-176 says that the live config still
  matches the database; a telemetry pipeline that was replaced is put back stopped, and the
  new one is left running (`RuntimeConfigManager.Apply`, `RuntimeConfigManager.Swap`,
  `UpstreamsFollowIff`).
- `replace_config` says it keeps buckets whose limit is unchanged
  (src/mcpxy_proxy/policy/engine.py:95-96). It keeps all of them, and a later take drops a
  changed one; or it clears all of them (`PolicyEngine.ReplaceConfig`, `PolicyEngine.TakeFrom`).
- With both scopes limited, a request that is refused for its client has used up a token of
  its upstream (`DeniedRequestUntouchedIff`). It takes a reload that changes the limit, in its
  rate, burst or scope, to get there (`NeverInVain`); `AlwaysFirstIff` says which requests after
  such a reload open the way (`ScopeChangePaysInVain`, `RateChangePaysInVain`).
- Evicting idle clients can be noticed if rate times idle time is less than the burst
  (`EvictionUnseenIff`, `EvictionSeen`).
- An environment variable that holds a secret placeholder passes the check for missing
  secrets (`PreCheckReliableIff`, `EnvironmentSlipsThrough`).
- Concurrent callers cause one refresh only while the new token lasts: if the server grants
  at most 60 seconds, every waiter exchanges again, and with the refresh token it found
  before it waited (`WaiterAfterRefresh`).
- After a 401 whatever token is cached is taken to be the rejected one, so callers that were
  all rejected with one token each refresh (`RejectedCallersExchange`, `RejectionsHappen`).
- Keeping the refresh token where the server sends no new one
  (src/mcpxy_proxy/auth/oauth.py:590-594) keeps the one that was sent, which another caller's
  refresh may have replaced; and a grant that is not stored is overwritten when the upstream
  is registered next (`StaysRefreshable`, `CachedNewestIff`, `StaleGrantHappens`,
  `UnsavedGrantHappens`).
- `register_upstream` says that it keeps the token cache
  (src/mcpxy_proxy/auth/oauth.py:282-283) and replaces it by the stored tokens
  (`RegisterKeepsCacheIff`).
- A telemetry sink that raises ends the background worker; what it held and what is queued
  then or later is neither delivered nor counted as dropped. `stop` does the same
  (`EndLoses`).
- A drop file that is not UTF-8, holds too long an integer or is nested too deep, and a
  listing that meets a file it may not look at, end the watcher, although
  src/mcpxy_proxy/discovery/registration.py:177 says that the loop catches its own errors
  (`WatcherSurvivesIff`, `SurpriseEndsWatcher`). A removal that is not applied is not tried
  again (`RemovalForgotten`).
- One JSON line without a usable id ends the reader of a child process; afterwards even
  `stop` raises before it flushes (`CrashStrands`, `CrashHappens`, `StopSettlesIff`). After
  a failed respawn nothing reads again, although the comment at
  src/mcpxy_proxy/proxy/stdio.py:128 expects a retry (`RespawnDecides`). A request that comes
  while `stop` waits for the process stays in the map (`StopEndsCleanIff`,
  `LateRequestStranded`), and a start that comes while it waits for its readers is lost
  (`StartLostInStop`).
- A transport whose own start raised is not stopped when a reload is taken back, whatever it
  had begun (`ApplyDiff`).
- The body parser waits for more text on a `JSONDecodeError` only, and an integer of more than
  4300 digits raises a plain `ValueError`. So a long float that is cut into chunks after its
  digits is refused, although it can be read whole (`ParseJson`, `LongFloatCut`).
- The array mode of the body parser is laxer than RFC 8259: commas are optional, and an
  array need not be closed (`ArrayReadIff`).

## Model

| member | source | states |
|---|---|---|
| `UpstreamManagers.UpstreamManager.ApplyDiff` | src/mcpxy_proxy/proxy/manager.py:76-139 | For all old and new maps and all patterns of failing starts and stops: a reload commits (kept upstreams are the same objects with no call made on them, removed and replaced ones are stopped, new ones run with their new settings), or it raises with both maps holding what they held, every new transport that had come up stopped as far as its stop succeeds, and only transports whose stop was tried called again; either way in sync and, if the compensating calls succeed, running. It raises for an unknown kind only if an added or replaced upstream has a kind that is not registered, and for a start or a stop only if that call, which is in the log of its transport, raised |
| `RuntimeConfigs.RuntimeConfigManager.Apply` | src/mcpxy_proxy/runtime.py:105-198 | One apply either sets the raw config, the validated config, the policies, the live upstreams and the store to the candidate, or leaves all but the live upstreams, telemetry and rate-limit buckets as they were; the TLS block never changes. Live transports match the live settings after every reply, and run unless a reload failed and compensating for it failed too. After a failure the upstreams follow the config if and only if it was not persisting that failed or there was nothing to change in them, and telemetry still runs if and only if its block was not to change. The diff of a reply tells exactly which settings the apply has changed, or which a dry run would, each by its field before and after; a failure happens at the stage told exactly because a call there raised |
| `ApplyInterleavings.RawIsStored` | src/mcpxy_proxy/runtime.py:152-198 | In every state of every interleaving of applies the raw config is the stored payload, if it was at the start, the policies are the config's, and the TLS block is the one at the start although each call compares it before it has the lock |
| `ApplyInterleavings.AppliedAsBegun` | src/mcpxy_proxy/runtime.py:105-198 | In every interleaving, what a call that replies `applied: True` has put in place, in raw config, config, policies, live upstreams and store, is what the candidate it began with stands for |
| `ApplyInterleavings.UpstreamsFollowIff` | src/mcpxy_proxy/runtime.py:157-198 | In every state of every interleaving the live upstreams are those of the last call whose reload returned, and follow the config if and only if that call could save or had nothing to change in them; `UpstreamsFollowAtFirst` is the time before there is one |
| `MessageStream.ParseJson` | src/mcpxy_proxy/server.py:455-520 | The buffer and cursor loop, for every cutting of a body into chunks, yields exactly the messages and the outcome that the whole text means, if and only if no chunk ends inside an object of the body right where its number looks like an integer of more than 4300 digits; otherwise it raises after a part of the messages |
| `BodyGrammar.BodyReadIff` | src/mcpxy_proxy/server.py:455-520 | What the parser takes, against a grammar that is given apart from it: a body is read to its end as certain messages if and only if it is blank, or one object of RFC 8259 in any layout with spaces around it, without too long an integer, or an array as lax as below |
| `JsonGrammar.ReadIffWritten` | src/mcpxy_proxy/server.py:495 | The decoder, character by character, reads a text to its end if and only if some value of the grammar of RFC 8259, with any blanks between its tokens, is written so |
| `JsonText.ValueInWindow` | src/mcpxy_proxy/server.py:495 | Prefix stability of `raw_decode`: an object, or any value followed by a character that no number goes on with, is found the same wherever it stands in a larger text |
| `BodyGrammar.ArrayReadIff` | src/mcpxy_proxy/server.py:476-485 | The array mode is exactly this lax: a body that opens with a bracket is read as certain messages if and only if it is these objects, each after any spaces and commas, then any more of these, and then a closing bracket with spaces after it or nothing |
| `MessageStream.ParseNdjson` | src/mcpxy_proxy/server.py:440-453 | The line loop, for every cutting into chunks, yields what the lines of the whole text mean |
| `BodyGrammar.NdjsonReadIff` | src/mcpxy_proxy/server.py:440-453 | A body of lines is read to its end as certain messages if and only if its lines are blank, or hold one of these objects each, in order, with any blanks around it |
| `TrafficStream.SubscribeTraffic` | frontend/src/api/sse.ts:29-63 | The client loop, for every cutting of the stream into chunks, yields exactly the events of its complete blocks |
| `TrafficStream.SessionRoundTrip` | src/mcpxy_proxy/server.py:1717-1732 | End to end, for every session whose payloads are dumped objects: the client sees the snapshot and then exactly the records that arrived before it went away, in order |
| `StreamGrammar.StreamRead` | frontend/src/api/sse.ts:38-62 | What the client makes of every stream, against a grammar given apart from it: blocks of comment, event, data and other lines with any blanks that `trim` removes are read as the last name and all data of each, in order, and an unfinished block as nothing |
| `RateLimiting.RequestsBounded` | src/mcpxy_proxy/policy/engine.py:226-248 | In any window of any run of requests and reloads that leave an upstream's limit alone, what `check` allows against one bucket is at most burst plus rate times length, per upstream and per client |
| `RateLimiting.EvictionsChangeNoDecision` | src/mcpxy_proxy/policy/engine.py:183-195 | If rate times idle time is at least the burst for every limit ever in force, a run decides the same with its evictions and without them |
| `DeniedRequests.AllowedIff` | src/mcpxy_proxy/policy/engine.py:115-141 | A request is let through if and only if it is small enough, no deny pattern matches its method and an allow pattern does if there are any, and each bucket its limit names, for a client without an address that of "unknown", holds a whole token, refilled ideally up to now |
| `DeniedRequests.DeniedRequestUntouchedIff` | src/mcpxy_proxy/policy/engine.py:239-248 | A denied request leaves every bucket as it was if and only if not this holds before it: both scopes are limited, size and method pass, its upstream has a token and its client has none |
| `VainPayments.AlwaysFirstIff` | src/mcpxy_proxy/policy/engine.py:92-102 | In any run of requests, reloads and evictions, measured by one limit, the upstream's bucket is no fuller than any of its clients' after every step if and only if no request takes under another scope of it, on clients alone, and leaves a client with less than the upstream, or under another rate or burst, which makes the upstream's bucket anew, while some client's is neither made anew nor full. As long as none does, no request checked against that limit costs the upstream a token in vain |
| `VainPayments.NeverInVain` | src/mcpxy_proxy/policy/engine.py:239-248 | So none ever does while the upstream's limit stays the same in rate, burst and scope, with both scopes |
| `TokenBuckets.EvictionUnseenIff` | src/mcpxy_proxy/policy/engine.py:183-195 | Forgetting an idle bucket can never be noticed if and only if rate times idle time is at least the burst |
| `ConfigStores.RunAgrees` | src/mcpxy_proxy/storage/config_store.py:415-518 | After any run of saves, upserts and deletes, some of whose transactions fail: caches and tables agree, versions are contiguous and each looks up the payload saved under it, and a fresh load rebuilds exactly the caches |
| `ConfigStores.UpsertReads` | src/mcpxy_proxy/storage/config_store.py:583-627 | A secret with a valid name and a value of at most 65536 characters reads back as it was put, in this process and in the next with the same key, and all others stay; any other upsert, or one that does not commit, changes nothing |
| `ConfigSecrets.FoundIffAskedFor` | src/mcpxy_proxy/config.py:576-630 | For every config tree the names `find_secret_references` returns are exactly those on which the result of `_expand_secrets` depends |
| `ConfigSecrets.PreCheckReliableIff` | src/mcpxy_proxy/config.py:597-605 | In general the check can be relied on, for all secrets, exactly when expanding the environment brings in no secret name that was not found |
| `ConfigSecrets.ScanIff` | src/mcpxy_proxy/config.py:15-16 | Cutting a text is matching it against the placeholder pattern from left to right: each placeholder with a name of the pattern is one, nothing else is, and there is no other way to cut it |
| `ProxyBridges.RunInv` | src/mcpxy_proxy/proxy/bridge.py:141-242 | In every state of every interleaving of `forward` calls the queue holds one slot for each call being forwarded, never more than its size, and each ended call has made exactly the record its outcome calls for |
| `ProxyBridges.RunFated` | src/mcpxy_proxy/proxy/bridge.py:141-242 | In every state of every interleaving, a call got a slot and reached its upstream if and only if it came while the bridge was neither shutting down nor full, the policies let it through, its upstream was known and its message was redacted; what became of it follows from what it woke up to. Any other call ended at once, for the first reason that applies |
| `OAuthRefreshing.OneExchange` | src/mcpxy_proxy/auth/oauth.py:549-595 | However many callers find the tokens expired, the exchanges started are at most one more than those that failed and those that a 401 forced on lasting tokens, as long as what a refresh brings has not expired again: with neither, N callers cause one exchange |
| `OAuthRefreshing.OneExchangeInFlight` | src/mcpxy_proxy/auth/oauth.py:549-595 | In every state of every run each upstream has at most one refresh exchange in flight |
| `OAuthRetries.RejectedCallersExchange` | src/mcpxy_proxy/auth/oauth.py:651-665 | N callers that come back with a 401 for one access token make N exchanges; if the first grants another token that lasts, all later ones are needless: plainly asking would have given that one |
| `OAuthGrants.StaysRefreshable` | src/mcpxy_proxy/auth/oauth.py:578-602 | Over any stretch of any run, cache and store hold the refresh token granted last in every state if and only if no step gives the upstream up (revoked, unregistered, refused, re-authorized without a refresh token), none is answered without a refresh token for one that was no longer the last, and no new one goes unsaved |
| `OAuthOutcomes.ExchangesIff` | src/mcpxy_proxy/auth/oauth.py:564-577 | In any run a caller in the locked part exchanges its refresh token if and only if endpoints and credentials are there and its upstream has been registered and not been dropped since; otherwise it fails and lets the lock go |
| `OAuthAuthorizing.RedeemedOnce` | src/mcpxy_proxy/auth/oauth.py:472-481 | No `state` is redeemed twice in any interleaving of callbacks |
| `OAuthAuthorizing.RedeemedAsStarted` | src/mcpxy_proxy/auth/oauth.py:412-510 | What is redeemed was started by one earlier step, at most 900 seconds before and with neither a callback nor a registration of its upstream in between, and is exchanged at that start's token endpoint with a verifier and a redirect that pass the server's checks against that start (sections 4.2 to 4.6 of RFC 7636) |
| `OAuthAuthorizing.RedeemsIff` | src/mcpxy_proxy/auth/oauth.py:412-510 | In any run a callback redeems its flow if and only if an earlier step started one under this state, at most 900 seconds before, and neither a callback for it nor a registration or removal of its upstream came in between |
| `StdioTransports.RepliesCorrelate` | src/mcpxy_proxy/proxy/stdio.py:130-186 | In any interleaving with distinct live ids every future is open and in the map under its own id, or settled for good; a reply goes to the id it answers; the end of the output and the flush of `stop` leave the map empty and no future open |
| `StdioHistories.FutureIs` | src/mcpxy_proxy/proxy/stdio.py:130-186 | In any interleaving with distinct live ids a request's future is open if and only if nothing has settled it since it was registered; else it holds what the first step gave that did: the reply to its id, None at the end of the output or at the flush of a stop, or the cancellation of its caller once it waits |
| `StdioStops.CrashStrands` | src/mcpxy_proxy/proxy/stdio.py:80-151 | After a line that is JSON without a usable id, and until the transport is started again: no stop gets to its flush, and a request that waits stays open if and only if its caller does not give up |
| `StdioStops.StopSettlesIff` | src/mcpxy_proxy/proxy/stdio.py:80-93 | A stop settles a request that waited when it began if and only if neither its reader nor the stderr reader had ended by an exception, and the latter does not do so while the reader is joined |
| `StdioHistories.StopBeginsIff` | src/mcpxy_proxy/proxy/stdio.py:80-92 | A stop raises at once if and only if its reader has ended by an exception, or there is none and the stderr reader has; else it has cancelled its reader, if any |
| `StdioStops.StopEndsCleanIff` | src/mcpxy_proxy/proxy/stdio.py:93-107 | A stop that got to its flush ends with an empty map and no open future if and only if no request came between flush and end |
| `StdioStops.RespawnDecides` | src/mcpxy_proxy/proxy/stdio.py:113-137 | When the output ends while the transport runs, from the respawn on no task reads any more, until a start, if and only if the spawn failed |
| `TelemetryPipelines.RunInv` | src/mcpxy_proxy/telemetry/pipeline.py:48-89 | In every state of every run each offered event is in exactly one of delivered, current batch, queue, dropped, or gone with the background worker; the first three are in the order of the offers; the drop total is what was dropped and equals the sums by reason and by policy; and with `drop_oldest` the queue is the last offers without a gap |
| `TelemetryPipelines.EndLoses` | src/mcpxy_proxy/telemetry/pipeline.py:40-89 | When the worker ends, by a sink that raises or by `stop`, delivery is over for good: every event ever offered is delivered or counted as dropped if and only if batch and queue were empty then and nothing is offered afterwards |
| `TrafficRecorders.RecordsAddUp` | src/mcpxy_proxy/observability/traffic.py:48-93 | Over every run: what a subscriber got plus what it missed is what was recorded since it subscribed, in order, its queue is the end of what it got, and the global drop counter is the sum over all subscribers |
| `TrafficMetrics.Metrics` | src/mcpxy_proxy/observability/traffic.py:104-161 | The counting loop and the percentile loop compute the report defined on the records in the window, without counters |
| `TrafficMetrics.ReportAgrees` | src/mcpxy_proxy/observability/traffic.py:104-161 | For every buffer and cutoff: total and errors are the sums over upstreams, an upstream's total is the sum of its status counts, and p50 <= p95 <= p99 |
| `TrafficMetrics.PercentileShare` | src/mcpxy_proxy/observability/traffic.py:135-140 | Each percentile is a value, rounded, such that of n values at least p percent of n - 1 and half a place more are no greater, and at most that many are less |
| `FileDropWatchers.WatcherSurvivesIff` | src/mcpxy_proxy/discovery/registration.py:183-226 | Over any sequence of looks at the directory the watcher is alive if and only if, in none of them, listing raised anything but `FileNotFoundError`, or reading or parsing a new or changed file raised anything but `OSError` and `JSONDecodeError` |
| `FileDropWatchers.ScanReconciles` | src/mcpxy_proxy/discovery/registration.py:195-252 | A scan whose reads and applies all succeed ends with the listing known, each new or changed stem registered with its definition, each unchanged one as it was, each vanished one unregistered, and no other name changed |
| `Registrations.AddThenRemove` | src/mcpxy_proxy/discovery/registration.py:63-104 | Removing what was added gives back the upstreams and every other entry that does not name it |
| `Registrations.BulkIff` | src/mcpxy_proxy/discovery/registration.py:106-129 | A bulk add takes all its entries or none: it is refused if and only if one has no name or no definition, or, unless it replaces, a name that is there or comes before; in the config it applies the last entry of each name stands, and everything else is as it was |
| `UpstreamManagers.UpstreamManager.StartNew` | src/mcpxy_proxy/proxy/manager.py:101-105 | New and replaced transports are started before an old one is touched, and all that are started are of a registered kind; it fails exactly at the first of an unknown kind or whose start raises, names it, and keeps what was started |
| `UpstreamManagers.UpstreamManager.StopOld` | src/mcpxy_proxy/proxy/manager.py:107-113 | The live ones among the removed and replaced are stopped, once each, up to the first that raises; no other is called |
| `UpstreamManagers.UpstreamManager.TakeBack` | src/mcpxy_proxy/proxy/manager.py:126-136 | Compensation makes exactly one stop call on each new transport and one start call on each stopped one, and ignores what they raise |
| `UpstreamManagers.UpstreamManager.Swap` | src/mcpxy_proxy/proxy/manager.py:98-136 | Both halves and their compensation: it fails exactly if a start or a stop does, for the reason told; then each old transport is untouched, or was stopped and then started again |
| `UpstreamManagers.UpstreamManager.StartAll` | src/mcpxy_proxy/proxy/manager.py:62-69 | A start brings up every configured upstream from its own settings, or stops, with what runs so far live, exactly at the first of an unknown kind or whose start raises |
| `UpstreamManagers.PlanIsPartition` | src/mcpxy_proxy/proxy/manager.py:85-91 | Kept, restarted, added and removed names are disjoint and cover both maps |
| `RuntimeConfigs.RuntimeConfigManager.ApplyTelemetryIfNeeded` | src/mcpxy_proxy/runtime.py:200-216 | A changed block always stops the old pipeline, and replaces it only by one that started |
| `RuntimeConfigs.RuntimeConfigManager.Swap` | src/mcpxy_proxy/runtime.py:152-198 | The part under the lock: what it leaves in every copy is what the interleaved steps leave, and further when a started pipeline is left running with nothing that refers to it, and when buckets are lost |
| `RuntimeConfigs.RuntimeConfigManager.ReloadAndCommit` | src/mcpxy_proxy/runtime.py:157-198 | The same from the reload on; transports are in sync for every outcome, and running unless compensation failed |
| `RuntimeConfigs.RuntimeConfigManager.Commit` | src/mcpxy_proxy/runtime.py:160-178 | In-memory copies and store move together; a save that raises undoes the in-memory ones |
| `RuntimeConfigs.RuntimeConfigManager.Precheck` | src/mcpxy_proxy/runtime.py:111-150 | A candidate gets past the checks exactly when the interleaved step lets it, without a change; a dry run tells exactly which settings would change, and none if the candidate stands for the config in force |
| `RuntimeConfigs.NothingToTell` | src/mcpxy_proxy/runtime.py:219-231 | A diff that tells the truth about applying what is in force already is empty |
| `RuntimeConfigs.PlainStandsFor` | src/mcpxy_proxy/config.py:597-605 | A candidate without placeholders is validated as it is; without a secret store, one without those of the environment |
| `RuntimeConfigs.SecretStandsFor` | src/mcpxy_proxy/config.py:578-605 | A candidate whose value is a secret's placeholder, with any name the pattern has, is validated with the secret in its place, with nothing if it is missing, and as it is if there is no secret store |
| `RuntimeConfigs.VariableStandsFor` | src/mcpxy_proxy/config.py:564-605 | The same for a variable's placeholder, whether there is a secret store or not |
| `ApplyInterleavings.StepInv` | src/mcpxy_proxy/runtime.py:105-198 | Every step keeps the invariant behind it: copies of the last applied candidate, backups that are still current, one lock holder |
| `ApplyInterleavings.OneSwapper` | src/mcpxy_proxy/runtime.py:152 | At most one call is between acquiring and releasing the lock |
| `ApplyInterleavings.BeginWaitsIff` | src/mcpxy_proxy/runtime.py:111-150 | A call goes on to the lock if and only if it is no dry run, every secret its candidate names exists, and the candidate stands for a valid config with the TLS block in force |
| `ApplyInterleavings.AppliedIff` | src/mcpxy_proxy/runtime.py:152-198 | A call replies `applied: True` if and only if it gets to the end of its swaps, and there is no store or saving succeeds |
| `ApplyInterleavings.ReplyTells` | src/mcpxy_proxy/runtime.py:105-198 | A call that replies `applied: False`, dry runs included, or is cancelled, changed none of the copies, but for the live upstreams if their reload returned; one that replies `True` set all of them |
| `ApplyInterleavings.CopiesFollowReplies` | src/mcpxy_proxy/runtime.py:152-198 | Between two states with no successful reply all copies but the live upstreams are the same; the applied candidates only grow |
| `ApplyInterleavings.UpstreamsFollowAtFirst` | src/mcpxy_proxy/runtime.py:157-198 | And before any reload has returned, if and only if they did at the start |
| `MessageStream.Drain` | src/mcpxy_proxy/server.py:463-510 | The inner loop ends, and what it has yielded and left is the meaning of what was there, at whatever place of the body the buffer starts |
| `MessageStream.FromWaiting` | src/mcpxy_proxy/server.py:516-520 | Text that is left at the end is no value, so ending with an error is right exactly when some is left |
| `MessageStream.LinesAppend` | src/mcpxy_proxy/server.py:447-452 | Lines mean what they mean one after another, up to the first that is no object |
| `MessageStream.TruncatedBodyYieldsPrefix` | src/mcpxy_proxy/server.py:461-510 | A body cut short yields a prefix of the messages of the whole |
| `BodyGrammar.LongFloatCut` | src/mcpxy_proxy/server.py:493-497 | Such a cut: any number of more than 4300 digits with a fraction, cut after its digits |
| `BodyGrammar.ArrayRoundTrip` | src/mcpxy_proxy/server.py:476-485 | Objects as `json.dumps` writes them, so spaced, are all read back in order |
| `BodyGrammar.LineReadIff` | src/mcpxy_proxy/server.py:447-452 | A line is read as an object if and only if it is that object with blanks around it |
| `JsonText.NumberAgrees` | src/mcpxy_proxy/server.py:495 | A number is the same number wherever nothing can prolong it |
| `JsonText.ValueCut` | src/mcpxy_proxy/server.py:495 | The converse of prefix stability: a value stays that value when the text is cut right after it |
| `JsonGrammar.DecodeIffWritten` | src/mcpxy_proxy/server.py:495 | `raw_decode` returns an object if and only if its text is one of the grammar without an integer of more than 4300 digits |
| `DigitLimits.DecodeInWindow` | src/mcpxy_proxy/server.py:495 | A complete object is decoded, or refused for the digits of an integer, alike wherever it stands in a larger text |
| `JsonDump.DumpAccepted` | src/mcpxy_proxy/server.py:1729 | Round trip: the decoder reads what `json.dumps` writes and stops exactly at its end |
| `JsonDump.DumpedMeans` | src/mcpxy_proxy/server.py:1729 | The escapes of a dumped string stand for that string, surrogate pairs included |
| `JsonDump.DumpPrintable` | src/mcpxy_proxy/server.py:1729 | What `json.dumps` writes holds no line break |
| `TrafficStream.EventSource` | src/mcpxy_proxy/server.py:1717-1732 | The encoder writes one snapshot and then a record or a heartbeat for each wait, until the client is gone |
| `TrafficStream.RoundTrip` | frontend/src/api/sse.ts:38-62 | The client reads back every frame as meant (section 9.2 of the WHATWG HTML standard), and goes on with what follows |
| `StreamGrammar.BlockFound` | frontend/src/api/sse.ts:43-60 | Every block is written so by some lines, and tells what those say |
| `StreamGrammar.FrameWritten` | src/mcpxy_proxy/server.py:1717-1732 | Each frame of the server is such a block: a name and one piece of data, or a comment |
| `TrafficStream.TruncatedYieldsPrefix` | frontend/src/api/sse.ts:38-62 | A stream cut anywhere yields a prefix of what the whole one yields |
| `TrafficStream.DumpIsOneLine` | src/mcpxy_proxy/server.py:1729-1730 | A dumped object fits one `data:` line and survives trimming |
| `TrafficStream.EventsStep` | frontend/src/api/sse.ts:38-40 | A complete block means the same whatever follows it |
| `TokenBuckets.RefillComposes` | src/mcpxy_proxy/policy/engine.py:61-64 | Refilling in two steps is one ideal refill over the whole gap |
| `TokenBuckets.DeniedTakesLeaveNoTrace` | src/mcpxy_proxy/policy/engine.py:56-68 | Deleting every denied take from a run leaves all other decisions as they were |
| `TokenBuckets.WindowBound` | src/mcpxy_proxy/policy/engine.py:56-68 | In any window a bucket allows at most the tokens it has plus rate times length, so at most burst plus rate times length |
| `TokenBuckets.WaitAllows` | src/mcpxy_proxy/policy/engine.py:56-68 | Whoever waits for the time of one token is let through |
| `TokenBuckets.EvictionSeen` | src/mcpxy_proxy/policy/engine.py:183-195 | With a shorter idle time some client gets a second burst |
| `PolicyEngines.PolicyEngine.CheckRequest` | src/mcpxy_proxy/policy/engine.py:115-141 | Size, methods, rate limit, in this order: refused for its size exactly if it is too large, and for its method exactly if it is not too large and a deny pattern matches it, or there are allow patterns and none does |
| `PolicyEngines.PolicyEngine.IsMethodAllowed` | src/mcpxy_proxy/policy/engine.py:212-224 | The two loops: a method is let through if and only if no deny pattern matches it and, if there are allow patterns, one of them does |
| `PolicyEngines.OwnPoliciesWin` | src/mcpxy_proxy/policy/engine.py:201-210 | Field by field: what an upstream sets for itself is in force whatever the global policies say, and what it leaves open is theirs |
| `PolicyEngines.DenyGoesFirst` | src/mcpxy_proxy/policy/engine.py:212-224 | Refused is what a deny pattern matches, or no allow pattern if there are any; so more denials never let more through, more allowances never less, and no rules let everything through |
| `PolicyEngines.PolicyEngine.RateCheck` | src/mcpxy_proxy/policy/engine.py:226-248 | Takes from the upstream's and then the client's bucket, and stops at the first that is empty |
| `PolicyEngines.PolicyEngine.TakeFrom` | src/mcpxy_proxy/policy/engine.py:239-247 | A bucket is made anew when there is none or its limit has changed, and its access time is kept |
| `PolicyEngines.PolicyEngine.EvictIdleBuckets` | src/mcpxy_proxy/policy/engine.py:183-195 | Forgets exactly the client buckets that have been idle for longer and no upstream's, counts them, and keeps every other bucket as it is |
| `PolicyEngines.PolicyEngine.ReplaceConfig` | src/mcpxy_proxy/policy/engine.py:92-102 | Keeps every bucket and access time, or none if the new config has neither global nor upstream policies |
| `RateLimiting.EvictionsUnseen` | src/mcpxy_proxy/policy/engine.py:183-195 | The simulation behind it: two engines that differ in topped-up buckets only stay so, and decide alike |
| `RateLimiting.StepKeeps` | src/mcpxy_proxy/policy/engine.py:239-247 | Buckets and last accesses keep equal key sets and equal times |
| `VainPayments.ScopeChangePaysInVain` | src/mcpxy_proxy/policy/engine.py:92-102 | After a reload that extends a limit on clients to both scopes: two requests of one client, and the upstream has paid for the one that is denied |
| `VainPayments.RateChangePaysInVain` | src/mcpxy_proxy/policy/engine.py:239-247 | With both scopes throughout: a request, a reload to another rate, a request of another client, the reload back, and the upstream pays for the first client's next request, which is denied |
| `ConfigStores.RunKeeps` | src/mcpxy_proxy/storage/config_store.py:415-481 | The history after a run is the history before it and then every committed payload, in order |
| `ConfigStores.StepKeeps` | src/mcpxy_proxy/storage/config_store.py:415-639 | Each operation keeps the agreement: active row is the last history row, upstream rows are its object-valued upstreams, secrets decrypt to what is cached |
| `ConfigStores.SavedReads` | src/mcpxy_proxy/storage/config_store.py:415-481 | A saved payload is the active one under the next version, and its object-valued upstreams, and no others, have their rows |
| `ConfigStores.DeleteReads` | src/mcpxy_proxy/storage/config_store.py:629-639 | A deleted secret is gone from this process and the next, and all others stay |
| `ConfigStores.LoadRestores` | src/mcpxy_proxy/storage/config_store.py:336-393 | Loading the tables of an agreeing store gives back its payload, version and secrets |
| `ConfigStores.WrongKeyLoadsIff` | src/mcpxy_proxy/storage/config_store.py:376-383 | With another key the database loads if and only if it holds no secret |
| `ConfigStores.HistoryLookup` | src/mcpxy_proxy/storage/config_store.py:506-518 | A version is found exactly within the contiguous range, with its own payload |
| `ConfigStores.ConfigStore.SaveActiveConfig` | src/mcpxy_proxy/storage/config_store.py:415-481 | A save commits all three tables and both caches, or, exactly if one of its statements raises, changes nothing |
| `ConfigStores.ConfigStore.InsertUpstreams` | src/mcpxy_proxy/storage/config_store.py:466-478 | The rows inserted are exactly the upstream entries that are objects |
| `ConfigStores.ConfigStore.LoadAll` | src/mcpxy_proxy/storage/config_store.py:336-393 | Loading succeeds exactly when every secret decrypts, and then fills the caches from the tables |
| `ConfigStores.ConfigStore.OpenSecrets` | src/mcpxy_proxy/storage/config_store.py:373-391 | Decrypting row by row is decrypting all rows, or failing at one |
| `ConfigStores.ConfigStore.UpsertSecret` | src/mcpxy_proxy/storage/config_store.py:583-627 | A valid name and value are stored encrypted and cached together; refused exactly for its name or its length, and raising exactly if a statement does, with nothing changed |
| `ConfigStores.ConfigStore.DeleteSecret` | src/mcpxy_proxy/storage/config_store.py:629-639 | Deleted from table and cache together, and says whether it was there; refused exactly for its name, and raising exactly if the statement does, with nothing changed |
| `ConfigSecrets.FindSecretReferences` | src/mcpxy_proxy/config.py:608-630 | The walk returns exactly the names referenced in some text of the tree |
| `ConfigSecrets.PreCheckSuffices` | src/mcpxy_proxy/runtime.py:115-130 | On trees without `${env:}` placeholders the check before an apply passes if and only if expansion never takes the empty-string fallback |
| `ConfigSecrets.EnvironmentSlipsThrough` | src/mcpxy_proxy/runtime.py:115-130 | An environment value that is itself a secret placeholder passes the check and still expands to the empty string |
| `ConfigSecrets.NeverFallsBackMeans` | src/mcpxy_proxy/config.py:590-593 | Where expansion never falls back, the fallback text makes no difference |
| `ConfigSecrets.ExpandNothing` | src/mcpxy_proxy/config.py:564-594 | Without references expansion gives the tree back |
| `ConfigSecrets.ScanWritten` | src/mcpxy_proxy/config.py:15-16 | Cutting a text into placeholders and plain characters loses nothing |
| `ConfigSecrets.PlaceholderReplaced` | src/mcpxy_proxy/config.py:564-594 | A written placeholder with any valid name is found and replaced, and the text after it expanded on its own |
| `ConfigTrees.ValidNameIff` | src/mcpxy_proxy/discovery/registration.py:45-46 | The rule for names lets through exactly words of up to 128 of its characters that do not start with a dash, and one line break after them |
| `ProxyBridges.SlotThere` | src/mcpxy_proxy/proxy/bridge.py:242 | A call that gives its slot back finds one: the queue is never popped when empty |
| `ProxyBridges.StepHolding` | src/mcpxy_proxy/proxy/bridge.py:141-242 | A step changes the set of holders by the acting call only |
| `ProxyBridges.NeverForwarded` | src/mcpxy_proxy/proxy/bridge.py:146-181 | A call that the policies refuse, or whose upstream is unknown, never holds a slot and is never answered; it is denied exactly if it was refused and not shut out |
| `ProxyBridges.MetAsBegun` | src/mcpxy_proxy/proxy/bridge.py:141-242 | What is noted of a call is what it met: how it began, the bridge at that time, and what it woke up to since |
| `ProxyBridges.DrainsAfterShutdown` | src/mcpxy_proxy/proxy/bridge.py:141-143 | From `start_shutdown` on, in every run, the event is set and the set of calls that hold a slot only shrinks |
| `ProxyBridges.ShutdownOnlyDrains` | src/mcpxy_proxy/proxy/bridge.py:141-143 | No step acquires a slot once the event is set |
| `ProxyBridges.ShutdownReachesRequests` | src/mcpxy_proxy/proxy/bridge.py:207-213 | A waiting request can see the shutdown, and then ends as rejected with its slot given back |
| `ProxyBridges.NobodyStuck` | src/mcpxy_proxy/proxy/bridge.py:141-242 | In every state of every run a new call can come in, and each that has a slot can wake up to whatever its await may bring |
| `OAuthFlows.OAuthManager.EndRefresh` | src/mcpxy_proxy/auth/oauth.py:578-602 | Refused: tokens dropped. Broken: tokens kept. Granted: stored, with the refresh token that was sent where no new one came; the lock is let go |
| `OAuthOutcomes.RefreshTells` | src/mcpxy_proxy/auth/oauth.py:578-602 | How a refresh ends tells what is kept: not authorized, nothing cached or stored; failed, the store as it was; a token, the same tokens cached and stored, with the refresh token that was sent where no new one came; and no other upstream's tokens change |
| `OAuthOutcomes.ExchangeTells` | src/mcpxy_proxy/auth/oauth.py:483-510 | The same for the exchange of a code |
| `OAuthOutcomes.RevokeTells` | src/mcpxy_proxy/auth/oauth.py:512-524 | Revoking forgets the cached tokens, and says so exactly when none are stored either |
| `OAuthOutcomes.RegisteredAnew` | src/mcpxy_proxy/auth/oauth.py:278-308 | Dropping an upstream and registering it again leaves exactly its stored tokens cached and none of its flows pending, and changes nothing of any other |
| `OAuthFlows.OAuthManager.RegisterUpstream` | src/mcpxy_proxy/auth/oauth.py:278-299 | Drops the upstream's pending flows and, where the store has tokens, puts those in place of the cached ones |
| `OAuthRefreshing.StepLock` | src/mcpxy_proxy/auth/oauth.py:557-561 | The lock of an upstream always names the one call in the locked part |
| `OAuthRefreshing.AcquireHandsOut` | src/mcpxy_proxy/auth/oauth.py:558-563 | A waiter that gets the lock is handed the cached token without an exchange if and only if that lasts for more than 60 seconds |
| `OAuthRefreshing.AskHandsOut` | src/mcpxy_proxy/auth/oauth.py:530-547 | A caller is handed a token at once if and only if the cached one lasts for more than 60 seconds, and never after a 401; it is told to authorize if and only if there is none, or none that can be refreshed, and waits with the cached refresh token otherwise |
| `OAuthRefreshing.RetryKeepsTokens` | src/mcpxy_proxy/auth/oauth.py:651-665 | A 401 keeps the cached tokens of every upstream, but lets those of its own count as expired |
| `OAuthRefreshing.WaiterAfterRefresh` | src/mcpxy_proxy/auth/oauth.py:549-595 | After another caller's refresh a waiter gets the new token if it still lasts; otherwise it exchanges the refresh token it found before it waited, even if that was rotated meanwhile |
| `OAuthRetries.RejectionsHappen` | src/mcpxy_proxy/auth/oauth.py:651-665 | For every N it happens in a run from the start of a process: N callers are handed one token, all are answered 401, and N exchanges follow, all but the first needless |
| `OAuthGrants.RefreshableIff` | src/mcpxy_proxy/auth/oauth.py:578-602 | The same for one step, in both directions (section 6 of RFC 6749) |
| `OAuthGrants.CachedNewestIff` | src/mcpxy_proxy/auth/oauth.py:278-299 | A step leaves the refresh token granted last in the cache if and only if it is none of these, nor a registration while the store does not hold that token |
| `OAuthGrants.StaleGrantHappens` | src/mcpxy_proxy/auth/oauth.py:549-595 | Two waiting callers and a server that rotates for the first only: a run after which the replaced refresh token is cached and stored again |
| `OAuthGrants.UnsavedGrantHappens` | src/mcpxy_proxy/auth/oauth.py:278-299 | A grant that could not be stored and a later registration: a run after which the cache is back at the replaced refresh token |
| `OAuthGrants.RegisterKeepsCacheIff` | src/mcpxy_proxy/auth/oauth.py:278-299 | Registering keeps the cached tokens if and only if none are stored for the upstream or the stored ones are the cached ones |
| `OAuthAuthorizing.StartedStaysPending` | src/mcpxy_proxy/auth/oauth.py:455-468 | A started flow can be redeemed at any time within the time to live, unless its callback has come or its upstream was registered anew or dropped |
| `OAuthAuthorizing.StepKeepsPending` | src/mcpxy_proxy/auth/oauth.py:455-468 | No other step, the clean-up of old flows included, forgets it |
| `OAuthAuthorizing.StepFlow` | src/mcpxy_proxy/auth/oauth.py:412-481 | Pending flows are started and unredeemed ones; redeeming takes one out for good |
| `StdioTransports.StepReachableIff` | src/mcpxy_proxy/proxy/stdio.py:174-186 | A step loses an open future from the map if and only if it is a request that uses an id which still waits |
| `StdioTransports.ResolvedOnce` | src/mcpxy_proxy/proxy/stdio.py:148-151 | A settled future never changes again |
| `StdioHistories.PendingIff` | src/mcpxy_proxy/proxy/stdio.py:138-186 | In any run a future is in the map under an id if and only if a request put it there, and no later request with the id, reply to it, end of the output or flush of a stop took it out |
| `StdioHistories.CallerIs` | src/mcpxy_proxy/proxy/stdio.py:174-186 | A caller is gone if it was cancelled or its write failed, waits if the write succeeded, and else is writing |
| `StdioHistories.RunningIff` | src/mcpxy_proxy/proxy/stdio.py:43-111 | In any run the transport runs if and only if it was started and not stopped since, and has a process if and only if one was spawned and no stop has come to its end since |
| `StdioHistories.ReadsOnIff` | src/mcpxy_proxy/proxy/stdio.py:130-157 | After a line its reader has ended by an exception exactly if the line has no usable id, restarts the process exactly at the end of the output of a running transport, and reads on exactly while that runs with a process |
| `StdioTransports.StdioUpstreamTransport.FlushPending` | src/mcpxy_proxy/proxy/stdio.py:168-172 | Resolves exactly the open futures in the map with None, and empties it |
| `StdioStops.CrashHappens` | src/mcpxy_proxy/proxy/stdio.py:140-151 | A run that gets there, with a request that waits |
| `StdioStops.StartRecovers` | src/mcpxy_proxy/proxy/stdio.py:43-79 | Starting it again brings back a reader, and the end of that one's output settles what waited |
| `StdioStops.OpenAfterStopIff` | src/mcpxy_proxy/proxy/stdio.py:93-107 | After it, a future is open if and only if its request came in between and its caller has not given up since |
| `StdioStops.LateRequestStranded` | src/mcpxy_proxy/proxy/stdio.py:93-107 | Such a request leaves its entry in the map whether its write succeeds or raises; its caller waits on exactly if it succeeds |
| `StdioHistories.StopsAfterStart` | src/mcpxy_proxy/proxy/stdio.py:43-111 | A stop right after a start that worked comes to its end whatever was left from before, with nothing waiting and nothing running |
| `StdioHistories.StartLostInStop` | src/mcpxy_proxy/proxy/stdio.py:80-111 | A start that slips in before a stop's flush is forgotten with the old process, although the transport then counts as running |
| `StdioHistories.FailedSpawns` | src/mcpxy_proxy/proxy/stdio.py:43-72 | A start or a restart whose spawn fails leaves everything as it was, but that the reader that asked for it is gone |
| `StdioStops.SilentSettlesIff` | src/mcpxy_proxy/proxy/stdio.py:80-157 | While no task reads, an open future stays open if and only if its caller does not give up and no stop gets to its flush |
| `TelemetryPipelines.StepInv` | src/mcpxy_proxy/telemetry/pipeline.py:48-89 | Each step keeps that |
| `TelemetryPipelines.NothingGone` | src/mcpxy_proxy/telemetry/pipeline.py:72-89 | While the sink has not failed and the worker has not been cancelled, nothing is gone |
| `TelemetryPipelines.EmitReports` | src/mcpxy_proxy/telemetry/pipeline.py:53-70 | An event is dropped exactly when the queue is limited and at its limit, the oldest of the queue or the one offered, by the policy; and true is reported exactly when the event offered is now queued |
| `TelemetryPipelines.DropsLabelled` | src/mcpxy_proxy/telemetry/pipeline.py:48-51 | In every state of every run all drops are counted under `queue_full`, and under the policy in force |
| `TelemetryPipelines.RoundTakes` | src/mcpxy_proxy/telemetry/pipeline.py:74-82 | A round takes from the front of the queue until the batch is full or nothing is left |
| `TelemetryPipelines.NeverStuck` | src/mcpxy_proxy/telemetry/pipeline.py:72-89 | Until it ends, the worker can always deliver what it holds, and take up what is queued |
| `TelemetryPipelines.AcceptedStays` | src/mcpxy_proxy/telemetry/pipeline.py:53-70 | With `drop_newest` an accepted event is never dropped later in the run |
| `TelemetryPipelines.TelemetryPipeline.FillBatch` | src/mcpxy_proxy/telemetry/pipeline.py:74-82 | The fill loop takes as many events as fit the batch, from the front |
| `TrafficRecorders.SinceSubscribed` | src/mcpxy_proxy/observability/traffic.py:84-93 | What counts for a subscriber is every record made between its subscribing and now, while it is open |
| `TrafficRecorders.RecordReaches` | src/mcpxy_proxy/observability/traffic.py:48-55 | A record leaves a closed subscription alone; an open one misses it exactly when its queue is limited and at its limit, and else has it queued last |
| `TrafficRecorders.TakenThenQueued` | src/mcpxy_proxy/observability/traffic.py:175-176 | In every run what a subscriber got is what it took, in order, and then what is queued for it |
| `TrafficRecorders.ClosedGetsNothing` | src/mcpxy_proxy/observability/traffic.py:178-182 | Nothing is meant for a subscription after it is closed |
| `TrafficRecorders.BufferIsLatest` | src/mcpxy_proxy/observability/traffic.py:42-50 | The ring holds exactly the last `maxlen` records since it was last cleared |
| `TrafficRecorders.TrafficRecorder.FanOut` | src/mcpxy_proxy/observability/traffic.py:51-55 | Whatever the order of the set, each open queue gets the record or is counted as full |
| `TrafficMetrics.CountWindow` | src/mcpxy_proxy/observability/traffic.py:113-133 | One pass with counters gives each upstream the totals, latencies and status counts of its own records |
| `TrafficMetrics.ReportCounts` | src/mcpxy_proxy/observability/traffic.py:113-133 | The totals are the records of the buffer from the cutoff on, and the errors those of them with status error, timeout or denied |
| `TrafficMetrics.EmptyReport` | src/mcpxy_proxy/observability/traffic.py:135-161 | An empty window is reported as zeros |
| `TrafficMetrics.ReportedLatenciesSeen` | src/mcpxy_proxy/observability/traffic.py:135-154 | Every reported percentile is the rounding of the latency of a record in the window and of that upstream |
| `TrafficMetrics.PercentileOfValue` | src/mcpxy_proxy/observability/traffic.py:135-140 | A percentile is the rounding of one of the values and grows with p |
| `TrafficMetrics.RankNearest` | src/mcpxy_proxy/observability/traffic.py:139 | The rank taken is the nearest to p percent of the way through n - 1 places, half a place off at most, so the clamp never moves it |
| `TrafficMetrics.RoundsNearest` | src/mcpxy_proxy/observability/traffic.py:135-140 | Rounding to three places gives the nearest thousandth, halves to the even one |
| `TrafficMetrics.SortedSorts` | src/mcpxy_proxy/observability/traffic.py:138 | Sorting is an ordered permutation |
| `Registrations.DefaultStaysValid` | src/mcpxy_proxy/discovery/registration.py:86-104 | Adding and removing keep the rule of src/mcpxy_proxy/config.py:557-561 that a default upstream is one of the upstreams, and a removed name is gone |
| `Registrations.AddIff` | src/mcpxy_proxy/discovery/registration.py:63-91 | An add is refused exactly for its name, for what is no definition or for a name that is taken, raises exactly if another kind of value stands for the upstreams otherwise, and else changes its own entry only |
| `Registrations.RemoveIff` | src/mcpxy_proxy/discovery/registration.py:93-104 | A removal goes through exactly if the name is there, and then the entry is gone, and the default with it if it named that; and nothing else changes |
| `Registrations.OddBulk` | src/mcpxy_proxy/discovery/registration.py:118-129 | Where another kind of value stands for the upstreams, the first entry decides whether a bulk add is refused or raises, and one without entries goes through |
| `Registrations.BulkIsAdds` | src/mcpxy_proxy/discovery/registration.py:106-129 | With names that `add` takes, a bulk add is the adds one by one: the same config or the same refusal |
| `Registrations.BulkSkipsNameCheck` | src/mcpxy_proxy/discovery/registration.py:121-128 | What bulk takes `add` takes too exactly when the name is valid: bulk does not check it |
| `Registrations.RegistrationService.Add` | src/mcpxy_proxy/discovery/registration.py:63-91 | An invalid name or definition or an existing name is refused; else one apply of the config with the definition in it |
| `Registrations.RegistrationService.Remove` | src/mcpxy_proxy/discovery/registration.py:93-104 | Refused if not there; else one apply without it, and no default that names it |
| `Registrations.RegistrationService.BulkAdd` | src/mcpxy_proxy/discovery/registration.py:106-129 | All entries in one apply, or none |
| `FileDropWatchers.ScanFixpoint` | src/mcpxy_proxy/discovery/registration.py:195-252 | The next scan of the same listing then changes nothing and applies nothing |
| `FileDropWatchers.RescanQuiet` | src/mcpxy_proxy/discovery/registration.py:218-220 | A scan of a listing that is known applies nothing, whatever the files hold |
| `FileDropWatchers.FailedAddRetried` | src/mcpxy_proxy/discovery/registration.py:218-252 | A file whose add failed is tried again, and known after the next scan exactly when that one registers it |
| `FileDropWatchers.RemovalForgotten` | src/mcpxy_proxy/discovery/registration.py:206-215 | A vanished stem is forgotten before its removal is tried, so it stays registered exactly when that one removal is not applied |
| `FileDropWatchers.AddEffect` | src/mcpxy_proxy/discovery/registration.py:218-252 | One file: what becomes known and registered, under the stem or the name it gives |
| `FileDropWatchers.DocumentedShapes` | src/mcpxy_proxy/discovery/registration.py:255-267 | The two documented shapes of a drop file, and no others, give a definition; and each is named by its stem or by what stands under `name` |
| `FileDropWatchers.ScanSurvivesIff` | src/mcpxy_proxy/discovery/registration.py:195-226 | The same for one scan, whatever it removed and added before |
| `FileDropWatchers.SurpriseEndsWatcher` | src/mcpxy_proxy/discovery/registration.py:222-226 | One file that is not UTF-8, one integer with too many digits, nesting that is too deep, and a listing that raises, each end a fresh watcher |
| `FileDropWatchers.DeadStays` | src/mcpxy_proxy/discovery/registration.py:183-193 | After that no file that is dropped, changed or removed does anything |

## Left out

- UpstreamManagers.UpstreamManager.ApplyDiff: nothing else touches the manager between its awaits; `restart` of one upstream during a reload is not modelled.
- UpstreamManagers.UpstreamManager.StartAll: the order of the starts, and a full `stop` of the manager, are not modelled.
- RuntimeConfigs.RuntimeConfigManager.Apply: one apply at a time; `ApplyInterleavings` has many, with the live upstreams by their settings only. Cancelling an apply in the middle of a reload of the transports is not modelled, and neither is the hook that re-registers OAuth upstreams.
- ApplyInterleavings.RawIsStored: a cancelled reload is taken to leave the live upstreams as they were. It says nothing about two callers that each took a snapshot of the raw config before the lock; the later one overwrites the earlier.
- RuntimeConfigs.RuntimeConfigManager.Swap: the version number and the flag for changed policies in the reply, and the diff sent along with a failure, are not modelled.
- RuntimeConfigs.RuntimeConfigManager.Precheck: the order in which missing names are reported is not modelled; validation is a partial function from trees to configurations.
- ConfigStores.RunAgrees: timestamps, sources and who applied are left out, as are rows that are no longer valid JSON and the revoked session ids.
- MessageStream.ParseJson: decoding UTF-8 and nesting too deep for Python's stack are left out; chunks are text. The limit on digits is Python's default.
- TrafficStream.SubscribeTraffic: `JSON.parse` is a function from text to a payload or a failure; aborting the request is left out.
- PolicyEngines.PolicyEngine.CheckRequest: `fnmatch` is a parameter; redaction is left out.
- RateLimiting.RequestsBounded: no eviction happens in the window; `EvictionsChangeNoDecision` says when one would make no difference.
- ProxyBridges.RunInv: telemetry events and the contents of records are left out; where an exception leaves `forward` there is no record, and the model claims none. The second shutdown test in `forward` can never succeed, since nothing awaits after the first, and has no branch in the model.
- OAuthRefreshing.OneExchange: in its window nobody registers, unregisters, revokes or re-authorizes the upstream. A new registration or authorization brings other tokens, with a first exchange of their own.
- OAuthFlows.OAuthManager.StartAuthorization: endpoint discovery, dynamic client registration and the building of the URL are left out; their results are parameters, or make the call fail.
- OAuthAuthorizing.RedeemedOnce: a random `state` is taken never to repeat.
- OAuthFlows.OAuthManager.RetryAfterReject: tokens are values here, so a caller that still holds the token object does not see it expire.
- TelemetryPipelines.RunInv: the contents of events are left out.
- TelemetryPipelines.EndLoses: a pipeline is not started again after it was stopped, as nothing in the repository does.
- TrafficRecorders.RecordsAddUp: `recent` and the asynchronous iterator are left out; they only select and pass on records.
- TrafficMetrics.Metrics: the error rate is left out, and rounding is on reals, not on binary fractions.
- FileDropWatchers.ScanReconciles: is about files that register under their own stem; a file that gives another name is removed by its stem when it vanishes, so that name stays. An upstream that somebody else changed is not put back while its file is unchanged. Other registrations do not interleave with the awaits of one scan.
- FileDropWatchers.AddEffect: is about configs whose upstreams are an object, as every validated one is; for others the methods are modelled and fail.
- StdioTransports.RepliesCorrelate: the order of writes under their lock, notifications, the process itself and the delay before a restart are left out; whether a write succeeds is free.
- StdioStops.StopSettlesIff: two stops of one transport do not overlap, as two restarts of it could; and no reader from before a second start is still reading.
- StdioStops.StopEndsCleanIff: no start comes between the flush and the end.
- HTTP transports, health checks, installers, importers, discovery of catalogs and plugins: branch by branch facts only.
- The admin API, sessions, users, invites, onboarding and the command line: plumbing around the parts modelled here.
- PII and PCI redaction, certificates, migrations and SQL dialects: not part of this model.
